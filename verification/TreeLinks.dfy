/** The three pointers every node of a tree value has, and what insertion and deletion do to them. */
module TreeLinks {
  import opened AllocTree
  import opened Nodes
  import opened Wrappers

  datatype Links = Links(left: Option<Node>, right: Option<Node>, parent: Option<Node>)

  function Top(t: Tree): Option<Node> {
    if t.Leaf? then None else Some(t.node)
  }

  /** The pointers of node `x` in `t`, when `up` is above the root of `t`. */
  function LinksOf(t: Tree, up: Option<Node>, x: Node): Links
    requires x in Elems(t)
  {
    if x == t.node then Links(Top(t.left), Top(t.right), up)
    else if x in Elems(t.left) then LinksOf(t.left, Some(t.node), x)
    else LinksOf(t.right, Some(t.node), x)
  }

  /** All the pointers of a tree as one table. */
  ghost function Shape(t: Tree): map<Node, Links> {
    map x | x in Elems(t) :: LinksOf(t, None, x)
  }

  // ---------------------------------------------------------------- subtrees

  /** `s`, hanging under `up`, is a subtree of `t`: its nodes have the same pointers in both. */
  ghost predicate Within(s: Tree, up: Option<Node>, t: Tree) {
    forall x | x in Elems(s) :: x in Elems(t) && LinksOf(s, up, x) == LinksOf(t, None, x)
  }

  /** No node twice, said subtree by subtree. */
  ghost predicate Apart(t: Tree) {
    t.Br? ==>
      && t.node !in Elems(t.left) && t.node !in Elems(t.right) && Elems(t.left) !! Elems(t.right)
      && Apart(t.left) && Apart(t.right)
  }

  lemma {:induction false} InsertElems(t: Tree, n: Node)
    ensures Elems(Insert(t, n)) == Elems(t) + {n}
  {
    if t.Br? {
      InsertElems(t.left, n);
      InsertElems(t.right, n);
    }
  }

  lemma {:induction false} InsertApart(t: Tree, n: Node)
    requires Apart(t) && n !in Elems(t)
    ensures Apart(Insert(t, n))
  {
    if t.Br? {
      InsertElems(t.left, n);
      InsertElems(t.right, n);
      InsertApart(t.left, n);
      InsertApart(t.right, n);
    }
  }

  lemma {:induction false} GraftElems(t: Tree, l: Tree)
    ensures Elems(Graft(t, l)) == Elems(t) + Elems(l)
  {
    if t.Br? {
      GraftElems(t.left, l);
    }
  }

  lemma {:induction false} GraftApart(t: Tree, l: Tree)
    requires Apart(t) && Apart(l) && Elems(t) !! Elems(l)
    ensures Apart(Graft(t, l))
  {
    if t.Br? {
      GraftElems(t.left, l);
      GraftApart(t.left, l);
    }
  }

  lemma {:induction false} RemoveElems(t: Tree, x: Node)
    requires Apart(t) && x in Elems(t)
    ensures Elems(Remove(t, x)) == Elems(t) - {x} && Apart(Remove(t, x))
  {
    if t.node == x {
      GraftElems(t.right, t.left);
      if t.right.Br? && t.left.Br? {
        GraftApart(t.right, t.left);
      }
    } else if x in Elems(t.left) {
      RemoveElems(t.left, x);
    } else {
      RemoveElems(t.right, x);
    }
  }

  lemma TopLinks(s: Tree, up: Option<Node>, t: Tree)
    requires s.Br? && Within(s, up, t)
    ensures s.node in Elems(t) && LinksOf(t, None, s.node) == Links(Top(s.left), Top(s.right), up)
  {
    assert s.node in Elems(s);
  }

  lemma LeftWithin(s: Tree, up: Option<Node>, t: Tree)
    requires s.Br? && Apart(s) && Within(s, up, t)
    ensures Apart(s.left) && Within(s.left, Some(s.node), t)
  {
    forall x | x in Elems(s.left)
      ensures x in Elems(t) && LinksOf(s.left, Some(s.node), x) == LinksOf(t, None, x)
    {
      assert x in Elems(s);
    }
  }

  lemma RightWithin(s: Tree, up: Option<Node>, t: Tree)
    requires s.Br? && Apart(s) && Within(s, up, t)
    ensures Apart(s.right) && Within(s.right, Some(s.node), t)
  {
    forall x | x in Elems(s.right)
      ensures x in Elems(t) && LinksOf(s.right, Some(s.node), x) == LinksOf(t, None, x)
    {
      assert x in Elems(s);
    }
  }

  lemma {:induction false} LinkTargets(t: Tree, up: Option<Node>, x: Node)
    requires x in Elems(t)
    ensures var k := LinksOf(t, up, x);
            && (k.left.Some? ==> k.left.value in Elems(t))
            && (k.right.Some? ==> k.right.value in Elems(t))
            && (k.parent == up || (k.parent.Some? && k.parent.value in Elems(t)))
  {
    if x != t.node {
      if x in Elems(t.left) {
        LinkTargets(t.left, Some(t.node), x);
      } else {
        LinkTargets(t.right, Some(t.node), x);
      }
    }
  }

  predicate Among(k: Links, es: set<Node>) {
    (k.left.Some? ==> k.left.value in es) && (k.right.Some? ==> k.right.value in es)
    && (k.parent.Some? ==> k.parent.value in es)
  }

  lemma Closed(t: Tree)
    ensures forall x | x in Elems(t) :: Among(LinksOf(t, None, x), Elems(t))
  {
    forall x | x in Elems(t)
      ensures Among(LinksOf(t, None, x), Elems(t))
    {
      LinkTargets(t, None, x);
    }
  }

  lemma {:induction false} ParentOfRoot(t: Tree, up: Option<Node>, x: Node)
    requires Apart(t) && x in Elems(t) && (up.Some? ==> up.value !in Elems(t))
    ensures LinksOf(t, up, x).parent == up <==> t.node == x
  {
    if x != t.node {
      if x in Elems(t.left) {
        LinkTargets(t.left, Some(t.node), x);
        ParentOfRoot(t.left, Some(t.node), x);
      } else {
        LinkTargets(t.right, Some(t.node), x);
        ParentOfRoot(t.right, Some(t.node), x);
      }
    }
  }

  // ---------------------------------------------------------------- insertion

  /** The node a new one for `address` is hung under, and whether on its left. */
  function Spot(t: Tree, address: nat): (Node, bool)
    requires t.Br?
  {
    if address < t.node.address then
      if t.left.Br? then Spot(t.left, address) else (t.node, true)
    else
      if t.right.Br? then Spot(t.right, address) else (t.node, false)
  }

  function Hung(k: Links, n: Node, left: bool): Links {
    if left then k.(left := Some(n)) else k.(right := Some(n))
  }

  lemma {:induction false} SpotInside(t: Tree, address: nat)
    requires t.Br?
    ensures Spot(t, address).0 in Elems(t)
  {
    if address < t.node.address {
      if t.left.Br? {
        SpotInside(t.left, address);
      }
    } else if t.right.Br? {
      SpotInside(t.right, address);
    }
  }

  /** Insertion changes one pointer of one old node. */
  lemma {:induction false} InsertLinks(t: Tree, up: Option<Node>, n: Node, x: Node)
    requires t.Br? && Apart(t) && x in Elems(t) && n !in Elems(t)
    ensures x in Elems(Insert(t, n))
    ensures LinksOf(Insert(t, n), up, x) ==
            if x == Spot(t, n.address).0 then Hung(LinksOf(t, up, x), n, Spot(t, n.address).1) else LinksOf(t, up, x)
  {
    InsertElems(t, n);
    InsertElems(t.left, n);
    if n.address < t.node.address {
      if t.left.Br? {
        SpotInside(t.left, n.address);
        if x in Elems(t.left) {
          InsertLinks(t.left, Some(t.node), n, x);
        }
      }
    } else if t.right.Br? {
      SpotInside(t.right, n.address);
      if x in Elems(t.right) {
        InsertLinks(t.right, Some(t.node), n, x);
      }
    }
  }

  lemma {:induction false} InsertedLinks(t: Tree, up: Option<Node>, n: Node)
    requires n !in Elems(t)
    ensures n in Elems(Insert(t, n))
    ensures LinksOf(Insert(t, n), up, n) == Links(None, None, if t.Leaf? then up else Some(Spot(t, n.address).0))
  {
    InsertElems(t, n);
    if t.Br? {
      if n.address < t.node.address {
        InsertedLinks(t.left, Some(t.node), n);
      } else {
        InsertedLinks(t.right, Some(t.node), n);
      }
    }
  }

  /** Insertion as two stores in the table. */
  lemma HungShape(t: Tree, n: Node)
    requires t.Br? && Apart(t) && n !in Elems(t)
    ensures Apart(Insert(t, n)) && Top(Insert(t, n)) == Top(t)
    ensures var (p, left) := Spot(t, n.address);
            var table := Shape(t)[n := Links(None, None, None)];
            p in Elems(t) &&
            var table' := table[p := Hung(table[p], n, left)];
            table'[n := table'[n].(parent := Some(p))] == Shape(Insert(t, n))
  {
    InsertElems(t, n);
    InsertApart(t, n);
    InsertedLinks(t, None, n);
    SpotInside(t, n.address);
    forall x | x in Elems(t)
      ensures LinksOf(Insert(t, n), None, x) ==
              if x == Spot(t, n.address).0 then Hung(LinksOf(t, None, x), n, Spot(t, n.address).1) else LinksOf(t, None, x)
    {
      InsertLinks(t, None, n, x);
    }
  }

  // ---------------------------------------------------------------- deletion

  function Leftmost(t: Tree): Node
    requires t.Br?
  {
    if t.left.Br? then Leftmost(t.left) else t.node
  }

  lemma {:induction false} LeftmostInside(t: Tree)
    requires t.Br?
    ensures Leftmost(t) in Elems(t)
  {
    if t.left.Br? {
      LeftmostInside(t.left);
    }
  }

  function SubtreeAt(t: Tree, x: Node): (s: Tree)
    requires x in Elems(t)
    ensures s.Br? && s.node == x
  {
    if x == t.node then t
    else if x in Elems(t.left) then SubtreeAt(t.left, x)
    else SubtreeAt(t.right, x)
  }

  lemma {:induction false} SubtreeInside(t: Tree, up: Option<Node>, x: Node)
    requires x in Elems(t)
    ensures Elems(SubtreeAt(t, x)) <= Elems(t)
    ensures LinksOf(t, up, x).left == Top(SubtreeAt(t, x).left)
    ensures LinksOf(t, up, x).right == Top(SubtreeAt(t, x).right)
  {
    if x != t.node {
      if x in Elems(t.left) {
        SubtreeInside(t.left, Some(t.node), x);
      } else {
        SubtreeInside(t.right, Some(t.node), x);
      }
    }
  }

  lemma {:induction false} SubtreeWithin(t: Tree, x: Node)
    requires Apart(t) && x in Elems(t)
    ensures Apart(SubtreeAt(t, x)) && Within(SubtreeAt(t, x), LinksOf(t, None, x).parent, t)
  {
    SubtreeWithinFrom(t, None, t, x);
  }

  lemma {:induction false} SubtreeWithinFrom(s: Tree, up: Option<Node>, t: Tree, x: Node)
    requires Apart(s) && Within(s, up, t) && x in Elems(s)
    ensures Apart(SubtreeAt(s, x)) && Within(SubtreeAt(s, x), LinksOf(s, up, x).parent, t)
    decreases s
  {
    if x != s.node {
      LeftWithin(s, up, t);
      RightWithin(s, up, t);
      if x in Elems(s.left) {
        SubtreeWithinFrom(s.left, Some(s.node), t, x);
      } else {
        SubtreeWithinFrom(s.right, Some(s.node), t, x);
      }
    }
  }

  /** A child's parent has it on one side, and nobody else has it. */
  lemma {:induction false} ParentAndChild(t: Tree, up: Option<Node>, x: Node, y: Node)
    requires Apart(t) && x in Elems(t) && y in Elems(t) && (up.Some? ==> up.value !in Elems(t))
    ensures var k := LinksOf(t, up, y);
            && (LinksOf(t, up, x).parent == Some(y) <==> k.left == Some(x) || k.right == Some(x))
            && !(k.left == Some(x) && k.right == Some(x))
  {
    if x in Elems(t.left) {
      ParentOfRoot(t.left, Some(t.node), x);
      LinkTargets(t.left, Some(t.node), x);
      if y in Elems(t.left) {
        ParentAndChild(t.left, Some(t.node), x, y);
      }
    } else if x in Elems(t.right) {
      ParentOfRoot(t.right, Some(t.node), x);
      LinkTargets(t.right, Some(t.node), x);
      if y in Elems(t.right) {
        ParentAndChild(t.right, Some(t.node), x, y);
      }
    }
    if y in Elems(t.left) {
      LinkTargets(t.left, Some(t.node), y);
    } else if y in Elems(t.right) {
      LinkTargets(t.right, Some(t.node), y);
    }
  }

  /** The pointers `k` of a node `y`, once `l` is hung under the leftmost node of `r`. */
  function Grafted(k: Links, y: Node, l: Tree, r: Tree): Links {
    if l.Br? && r.Br? then
      k.(left := if y == Leftmost(r) then Top(l) else k.left,
         parent := if y == l.node then Some(Leftmost(r)) else k.parent)
    else k
  }

  /** The same, once `x` with subtrees `l` and `r` under `parent` is gone as well. */
  function Patched(k: Links, y: Node, x: Node, l: Tree, r: Tree, parent: Option<Node>): Links {
    var c := Top(Join(l, r));
    var g := Grafted(k, y, l, r);
    Links(
      if g.left == Some(x) then c else g.left,
      if g.right == Some(x) then c else g.right,
      if c == Some(y) then parent else g.parent)
  }

  lemma Rehung(t: Tree, up: Option<Node>, up': Option<Node>, y: Node)
    requires y in Elems(t)
    ensures LinksOf(t, up', y) == if y == t.node then LinksOf(t, up, y).(parent := up') else LinksOf(t, up, y)
  {
  }

  lemma {:induction false} GraftLinks(r: Tree, l: Tree, up: Option<Node>, y: Node)
    requires r.Br? && l.Br? && Apart(r) && Apart(l) && Elems(l) !! Elems(r)
    requires y in Elems(l) || y in Elems(r)
    ensures y in Elems(Graft(r, l))
    ensures y in Elems(r) ==>
              LinksOf(Graft(r, l), up, y) ==
              if y == Leftmost(r) then LinksOf(r, up, y).(left := Top(l)) else LinksOf(r, up, y)
    ensures y in Elems(l) ==> LinksOf(Graft(r, l), up, y) == LinksOf(l, Some(Leftmost(r)), y)
  {
    GraftElems(r, l);
    GraftElems(r.left, l);
    if r.left.Br? {
      LeftmostInside(r.left);
      if y in Elems(l) || y in Elems(r.left) {
        GraftLinks(r.left, l, Some(r.node), y);
      }
    } else {
      assert Graft(r.left, l) == l;
    }
  }

  /** Deletion at the root. */
  lemma RemoveTopLinks(t: Tree, up: Option<Node>, y: Node)
    requires t.Br? && Apart(t) && y in Elems(t) && y != t.node && (up.Some? ==> up.value !in Elems(t))
    ensures y in Elems(Join(t.left, t.right))
    ensures LinksOf(Join(t.left, t.right), up, y) ==
            Patched(LinksOf(t, up, y), y, t.node, t.left, t.right, up)
  {
    var l, r := t.left, t.right;
    GraftElems(r, l);
    if y in Elems(l) {
      LinkTargets(l, Some(t.node), y);
      Rehung(l, Some(t.node), up, y);
    } else {
      LinkTargets(r, Some(t.node), y);
      Rehung(r, Some(t.node), up, y);
    }
    if l.Br? && r.Br? {
      LeftmostInside(r);
      GraftLinks(r, l, up, y);
      if y in Elems(l) {
        Rehung(l, Some(t.node), Some(Leftmost(r)), y);
      }
    }
  }

  lemma PatchTargets(s: Tree)
    requires s.Br?
    ensures Top(Join(s.left, s.right)).Some? ==> Top(Join(s.left, s.right)).value in Elems(s)
    ensures s.left.Br? ==> s.left.node in Elems(s)
    ensures s.right.Br? ==> Leftmost(s.right) in Elems(s)
  {
    if s.right.Br? {
      LeftmostInside(s.right);
    }
  }

  lemma RemovedTop(t: Tree, x: Node)
    requires x in Elems(t)
    ensures Top(Remove(t, x)) ==
            if t.node == x then Top(Join(SubtreeAt(t, x).left, SubtreeAt(t, x).right)) else Top(t)
  {
  }

  /** A node on the other side of the root from the deleted one keeps its pointers. */
  lemma Bystander(t: Tree, up: Option<Node>, y: Node, s: Tree, parent: Option<Node>)
    requires y in Elems(t) && s.Br? && Elems(s) !! Elems(t)
    requires up.Some? ==> up.value !in Elems(s)
    ensures Patched(LinksOf(t, up, y), y, s.node, s.left, s.right, parent) == LinksOf(t, up, y)
  {
    LinkTargets(t, up, y);
    PatchTargets(s);
  }

  /** Deletion anywhere: which pointers change, and to what. */
  lemma {:induction false} RemoveLinks(t: Tree, up: Option<Node>, x: Node, y: Node)
    requires Apart(t) && x in Elems(t) && y in Elems(t) && y != x && (up.Some? ==> up.value !in Elems(t))
    ensures y in Elems(Remove(t, x))
    ensures var s := SubtreeAt(t, x);
            LinksOf(Remove(t, x), up, y) ==
            Patched(LinksOf(t, up, y), y, x, s.left, s.right, LinksOf(t, up, x).parent)
  {
    RemoveElems(t, x);
    if t.node == x {
      RemoveTopLinks(t, up, y);
    } else if x in Elems(t.left) {
      RemoveElems(t.left, x);
      SubtreeInside(t.left, Some(t.node), x);
      if y in Elems(t.left) {
        RemoveLinks(t.left, Some(t.node), x, y);
      } else if y == t.node {
        RemovedTop(t.left, x);
        PatchTargets(SubtreeAt(t, x));
      } else {
        Bystander(t.right, Some(t.node), y, SubtreeAt(t, x), LinksOf(t, up, x).parent);
      }
    } else {
      RemoveElems(t.right, x);
      SubtreeInside(t.right, Some(t.node), x);
      if y in Elems(t.right) {
        RemoveLinks(t.right, Some(t.node), x, y);
      } else if y == t.node {
        RemovedTop(t.right, x);
        PatchTargets(SubtreeAt(t, x));
      } else {
        Bystander(t.left, Some(t.node), y, SubtreeAt(t, x), LinksOf(t, up, x).parent);
      }
    }
  }

  /** Deletion of `x` as stores in the table: the graft, ... */
  ghost function GraftTable(t: Tree, x: Node): (table: map<Node, Links>)
    requires Apart(t) && x in Elems(t)
    ensures table.Keys == Elems(t)
  {
    var s := SubtreeAt(t, x);
    if s.left.Br? && s.right.Br? then
      SubtreeInside(t, None, x);
      LeftmostInside(s.right);
      var table := Shape(t)[Leftmost(s.right) := Shape(t)[Leftmost(s.right)].(left := Top(s.left))];
      table[s.left.node := table[s.left.node].(parent := Some(Leftmost(s.right)))]
    else
      Shape(t)
  }

  /** ... then the parent's pointer, ... */
  ghost function ParentTable(t: Tree, x: Node): (table: map<Node, Links>)
    requires Apart(t) && x in Elems(t)
    ensures table.Keys == Elems(t)
  {
    var s, g := SubtreeAt(t, x), GraftTable(t, x);
    var c := Top(Join(s.left, s.right));
    LinkTargets(t, None, x);
    match LinksOf(t, None, x).parent
    case None => g
    case Some(p) => g[p := if g[p].left == Some(x) then g[p].(left := c) else g[p].(right := c)]
  }

  /** ... then the promoted child's parent; after that `x` is out. */
  ghost function ChildTable(t: Tree, x: Node): (table: map<Node, Links>)
    requires Apart(t) && x in Elems(t)
    ensures table.Keys == Elems(t)
  {
    var s, g := SubtreeAt(t, x), ParentTable(t, x);
    SubtreeInside(t, None, x);
    PatchTargets(s);
    match Top(Join(s.left, s.right))
    case None => g
    case Some(c) => g[c := g[c].(parent := LinksOf(t, None, x).parent)]
  }

  lemma GraftTableIs(t: Tree, x: Node, y: Node)
    requires Apart(t) && x in Elems(t) && y in Elems(t)
    ensures var s := SubtreeAt(t, x);
            GraftTable(t, x)[y] == Grafted(LinksOf(t, None, y), y, s.left, s.right)
    ensures GraftTable(t, x)[x] == LinksOf(t, None, x)
  {
    var s := SubtreeAt(t, x);
    SubtreeWithin(t, x);
    if s.left.Br? && s.right.Br? {
      LeftmostInside(s.right);
      assert s.left.node in Elems(s.left);
    }
  }

  lemma RemoveShape(t: Tree, x: Node)
    requires Apart(t) && x in Elems(t)
    ensures Apart(Remove(t, x)) && Shape(Remove(t, x)) == ChildTable(t, x) - {x}
    ensures Top(Remove(t, x)) ==
            if t.node == x then Top(Join(SubtreeAt(t, x).left, SubtreeAt(t, x).right)) else Top(t)
  {
    RemoveElems(t, x);
    RemovedTop(t, x);
    forall y | y in Elems(t) && y != x
      ensures LinksOf(Remove(t, x), None, y) == ChildTable(t, x)[y]
    {
      RemoveLinks(t, None, x, y);
      ChildTableIs(t, x, y);
    }
  }

  /** With `x` a child of at most one node and on at most one side, pointing that side elsewhere is
      pointing every pointer to `x` elsewhere. */
  lemma ParentTableIs(t: Tree, x: Node, y: Node)
    requires Apart(t) && x in Elems(t) && y in Elems(t) && y != x
    ensures var g, c := GraftTable(t, x)[y], Top(Join(SubtreeAt(t, x).left, SubtreeAt(t, x).right));
            ParentTable(t, x)[y] ==
            g.(left := if g.left == Some(x) then c else g.left, right := if g.right == Some(x) then c else g.right)
  {
    GraftTableIs(t, x, y);
    ParentAndChild(t, None, x, y);
    GraftSpares(t, x);
  }

  /** The graft neither adds nor removes a pointer down to `x`. */
  lemma GraftSpares(t: Tree, x: Node)
    requires Apart(t) && x in Elems(t)
    ensures var s := SubtreeAt(t, x);
            s.left.Br? && s.right.Br? ==>
              && Leftmost(s.right) in Elems(t)
              && Top(s.left) != Some(x) && LinksOf(t, None, Leftmost(s.right)).left != Some(x)
  {
    var s := SubtreeAt(t, x);
    if s.left.Br? && s.right.Br? {
      SubtreeWithin(t, x);
      SubtreeInside(t, None, x);
      RightWithin(s, LinksOf(t, None, x).parent, t);
      LeftmostInside(s.right);
      LinkTargets(s.right, Some(x), Leftmost(s.right));
      assert s.left.node in Elems(s.left);
    }
  }

  lemma ChildTableIs(t: Tree, x: Node, y: Node)
    requires Apart(t) && x in Elems(t) && y in Elems(t) && y != x
    ensures var s := SubtreeAt(t, x);
            ChildTable(t, x)[y] ==
            Patched(LinksOf(t, None, y), y, x, s.left, s.right, LinksOf(t, None, x).parent)
  {
    GraftTableIs(t, x, y);
    ParentTableIs(t, x, y);
  }
}
