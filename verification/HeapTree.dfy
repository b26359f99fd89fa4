/** The tree of allocated nodes in memory: node structures with left, right and parent pointers,
    proved against the tree value. */
module HeapTree {
  import opened AllocTree
  import opened Nodes
  import opened TreeLinks
  import opened Wrappers

  class MappedNode {
    const info: Node
    var left: MappedNode?
    var right: MappedNode?
    var parent: MappedNode?

    constructor (info: Node)
      ensures this.info == info && Detached()
    {
      this.info := info;
      left, right, parent := null, null, null;
    }

    ghost predicate Detached()
      reads this
    {
      left == null && right == null && parent == null
    }
  }

  ghost function Name(m: MappedNode?): Option<Node> {
    if m == null then None else Some(m.info)
  }

  /** `t` is the tree as a value; `at` gives the structure of each of its nodes. */
  class AllocedTree {
    var root: MappedNode?
    ghost var t: Tree
    ghost var at: map<Node, MappedNode>

    ghost predicate Names(m: MappedNode?)
      reads this`at
    {
      m != null ==> m.info in at && at[m.info] == m
    }

    /** The structure of node `y` is in `at` under it, and its pointers are those of the table. */
    ghost predicate Entry(y: Node, table: map<Node, Links>)
      requires y in table && y in at
      reads this`at, at[y]
    {
      var m := at[y];
      && m.info == y && Names(m.left) && Names(m.right) && Names(m.parent)
      && Links(Name(m.left), Name(m.right), Name(m.parent)) == table[y]
    }

    ghost predicate Table(table: map<Node, Links>)
      reads this`at, at.Values
    {
      && at.Keys == table.Keys
      && forall y {:trigger Entry(y, table)} | y in table :: Entry(y, table)
    }

    ghost predicate Valid()
      reads this, at.Values
    {
      Apart(t) && Names(root) && Name(root) == Top(t) && Table(Shape(t))
    }

    lemma InTree(m: MappedNode)
      requires Valid() && m in at.Values
      ensures m.info in Elems(t)
    {
      var y :| y in at && at[y] == m;
      assert Entry(y, Shape(t));
    }

    constructor ()
      ensures Valid() && t == Leaf && at == map[]
    {
      root, t, at := null, Leaf, map[];
    }

    // one store each, and what it does to the table

    method SetLeft(m: MappedNode, c: MappedNode?, ghost table: map<Node, Links>)
      requires Table(table) && Names(m) && Names(c)
      modifies m
      ensures Table(table[m.info := table[m.info].(left := Name(c))])
    {
      assert Entry(m.info, table);
      m.left := c;
      ghost var table' := table[m.info := table[m.info].(left := Name(c))];
      forall y | y in table'
        ensures Entry(y, table')
      {
        assert old(Entry(y, table));
      }
    }

    method SetRight(m: MappedNode, c: MappedNode?, ghost table: map<Node, Links>)
      requires Table(table) && Names(m) && Names(c)
      modifies m
      ensures Table(table[m.info := table[m.info].(right := Name(c))])
    {
      assert Entry(m.info, table);
      m.right := c;
      ghost var table' := table[m.info := table[m.info].(right := Name(c))];
      forall y | y in table'
        ensures Entry(y, table')
      {
        assert old(Entry(y, table));
      }
    }

    method SetParent(m: MappedNode, c: MappedNode?, ghost table: map<Node, Links>)
      requires Table(table) && Names(m) && Names(c)
      modifies m
      ensures Table(table[m.info := table[m.info].(parent := Name(c))])
    {
      assert Entry(m.info, table);
      m.parent := c;
      ghost var table' := table[m.info := table[m.info].(parent := Name(c))];
      forall y | y in table'
        ensures Entry(y, table')
      {
        assert old(Entry(y, table));
      }
    }

    /** A detached structure that is not yet in the tree joins the table. */
    ghost method Register(n: MappedNode)
      requires Valid() && n.Detached() && n.info !in Elems(t)
      modifies this`at
      ensures at == old(at)[n.info := n] && Names(root)
      ensures Table(Shape(t)[n.info := Links(None, None, None)])
    {
      at := at[n.info := n];
      ghost var table := Shape(t)[n.info := Links(None, None, None)];
      forall y | y in table
        ensures Entry(y, table)
      {
        assert y != n.info ==> old(Entry(y, Shape(t)));
      }
    }

    // hangs `n` under the structure the walk ended at
    method Hang(p: MappedNode, n: MappedNode, left: bool)
      requires Valid() && n.Detached() && n.info !in Elems(t) && t.Br?
      requires Names(p) && (p.info, left) == Spot(t, n.info.address)
      modifies this`t, this`at, p, n
      ensures Valid() && t == AllocTree.Insert(old(t), n.info) && at == old(at)[n.info := n]
    {
      ghost var t', table := AllocTree.Insert(t, n.info), Shape(t)[n.info := Links(None, None, None)];
      HungShape(t, n.info);
      Register(n);
      StoreChild(p, n, left, table);
      table := table[p.info := Hung(table[p.info], n.info, left)];
      SetParent(n, p, table);
      t := t';
    }

    method StoreChild(p: MappedNode, n: MappedNode?, left: bool, ghost table: map<Node, Links>)
      requires Table(table) && Names(p) && Names(n)
      modifies p
      ensures Table(table[p.info := if left then table[p.info].(left := Name(n)) else table[p.info].(right := Name(n))])
    {
      if left {
        SetLeft(p, n, table);
      } else {
        SetRight(p, n, table);
      }
    }

    method Insert(n: MappedNode)
      requires Valid() && n.Detached() && n.info !in Elems(t)
      modifies this, at.Values, n
      ensures Valid() && t == AllocTree.Insert(old(t), n.info) && at == old(at)[n.info := n]
    {
      var k := n.info.address;
      var p := root;
      if p != null {
        ghost var s, up := t, None;
        while p != null
          invariant p == null ==> Valid() && t == AllocTree.Insert(old(t), n.info) && at == old(at)[n.info := n]
          invariant p != null ==> Valid() && n.Detached() && t == old(t) && at == old(at)
          invariant p != null ==> s.Br? && Apart(s) && Within(s, up, t) && Spot(s, k) == Spot(t, k)
          invariant p != null ==> Names(p) && p.info == s.node
          decreases p != null, s
        {
          TopLinks(s, up, t);
          assert Entry(p.info, Shape(t));
          if k < p.info.address {
            if p.left != null {
              LeftWithin(s, up, t);
              p := p.left;
              s, up := s.left, Some(s.node);
            } else {
              Hang(p, n, true);
              p := null;
            }
          } else {
            if p.right != null {
              RightWithin(s, up, t);
              p := p.right;
              s, up := s.right, Some(s.node);
            } else {
              Hang(p, n, false);
              p := null;
            }
          }
        }
      } else {
        Register(n);
        root := n;
        t := Br(Leaf, n.info, Leaf);
        assert Shape(t) == map[n.info := Links(None, None, None)];
      }
    }

    /** The structure at the left end of `w`. */
    method WalkLeft(w: MappedNode, ghost s: Tree, ghost up: Option<Node>) returns (walker: MappedNode)
      requires Valid() && s.Br? && Apart(s) && Within(s, up, t) && Names(w) && w.info == s.node
      ensures Names(walker) && walker.info == Leftmost(s)
    {
      walker := w;
      ghost var s', up' := s, up;
      TopLinks(s', up', t);
      assert Entry(walker.info, Shape(t));
      while walker.left != null
        invariant s'.Br? && Apart(s') && Within(s', up', t) && Leftmost(s') == Leftmost(s)
        invariant Names(walker) && walker.info == s'.node
        invariant Names(walker.left) && Name(walker.left) == Top(s'.left)
        decreases s'
      {
        LeftWithin(s', up', t);
        walker := walker.left;
        s', up' := s'.left, Some(s'.node);
        TopLinks(s', up', t);
        assert Entry(walker.info, Shape(t));
      }
    }

    // both subtrees are there: the left one goes under the leftmost node of the right one
    method GraftLeft(node: MappedNode)
      requires Valid() && Names(node) && node.info in Elems(t)
      requires SubtreeAt(t, node.info).left.Br? && SubtreeAt(t, node.info).right.Br?
      modifies at.Values
      ensures Table(GraftTable(t, node.info))
    {
      ghost var x := node.info;
      ghost var s, table := SubtreeAt(t, x), Shape(t);
      SubtreeInside(t, None, x);
      SubtreeWithin(t, x);
      RightWithin(s, LinksOf(t, None, x).parent, t);
      LeftmostInside(s.right);
      assert Entry(x, table);
      var walker := WalkLeft(node.right, s.right, Some(x));
      var left := node.left;
      SetLeft(walker, left, table);
      table := table[walker.info := table[walker.info].(left := Name(left))];
      SetParent(left, walker, table);
    }

    // the child that takes the node's place
    method PromoteChild(node: MappedNode) returns (newChild: MappedNode?)
      requires Valid() && Names(node) && node.info in Elems(t)
      modifies at.Values
      ensures Table(GraftTable(t, node.info)) && Names(newChild)
      ensures Name(newChild) == Top(Join(SubtreeAt(t, node.info).left, SubtreeAt(t, node.info).right))
    {
      SubtreeInside(t, None, node.info);
      assert Entry(node.info, Shape(t));
      if node.right == null && node.left == null {
        newChild := null;
      } else if node.right != null && node.left == null {
        newChild := node.right;
      } else if node.left != null && node.right == null {
        newChild := node.left;
      } else {
        newChild := node.right;
        GraftLeft(node);
      }
    }

    // what pointed down at the node, a parent or the root pointer, points at the promoted child
    method RelinkParent(node: MappedNode, newChild: MappedNode?)
      requires Apart(t) && Names(node) && node.info in Elems(t)
      requires Table(GraftTable(t, node.info)) && Names(newChild)
      requires Name(newChild) == Top(Join(SubtreeAt(t, node.info).left, SubtreeAt(t, node.info).right))
      requires Names(root) && Name(root) == Top(t)
      modifies this`root, at.Values
      ensures Table(ParentTable(t, node.info)) && Names(root)
      ensures Name(root) == if t.node == node.info then Name(newChild) else Top(t)
      ensures Names(node.parent) && Name(node.parent) == LinksOf(t, None, node.info).parent
    {
      ghost var x := node.info;
      ghost var table := GraftTable(t, x);
      GraftTableIs(t, x, x);
      ParentOfRoot(t, None, x);
      LinkTargets(t, None, x);
      assert Entry(x, table);
      if node.parent != null {
        assert Entry(node.parent.info, table);
        StoreChild(node.parent, newChild, node.parent.left == node, table);
        assert Table(ParentTable(t, x));
        assert Entry(x, ParentTable(t, x));
      } else {
        root := newChild;
      }
    }

    // the node itself leaves the tree, pointing nowhere
    method Detach(node: MappedNode)
      requires Apart(t) && Names(node) && node.info in Elems(t) && Table(ChildTable(t, node.info))
      requires Names(root) && Name(root) == Top(Remove(t, node.info))
      modifies this`t, this`at, node
      ensures Valid() && t == Remove(old(t), node.info) && at == old(at) - {node.info} && node.Detached()
    {
      ghost var x := node.info;
      ghost var table, t' := ChildTable(t, x), Remove(t, x);
      RemoveShape(t, x);
      RemoveElems(t, x);
      Closed(t');
      node.parent, node.left, node.right := null, null, null;
      at, t := at - {x}, t';
      forall y | y in Shape(t')
        ensures Entry(y, Shape(t'))
      {
        assert old(Entry(y, table));
        assert Among(Shape(t')[y], Elems(t'));
      }
      assert Top(t').Some? ==> Top(t').value in Elems(t');
    }

    method RemoveNode(node: MappedNode)
      requires Valid() && Names(node) && node.info in Elems(t)
      modifies this, at.Values
      ensures Valid() && t == Remove(old(t), node.info) && at == old(at) - {node.info} && node.Detached()
    {
      var newChild := PromoteChild(node);
      RelinkParent(node, newChild);
      if newChild != null {
        SetParent(newChild, node.parent, ParentTable(t, node.info));
      }
      RemoveShape(t, node.info);
      Detach(node);
    }

    /** Takes the node at an address out of the tree; NULL, and no change, if there is none. */
    method SearchAndRemove(address: nat) returns (n: MappedNode?)
      requires Valid()
      modifies this, at.Values
      ensures Valid()
      ensures Find(old(t), address) == None ==> n == null && t == old(t) && at == old(at)
      ensures Find(old(t), address).Some? ==>
                var x := Find(old(t), address).value;
                x in old(at) && n == old(at)[x] && n.info == x && n.Detached() && t == Remove(old(t), x) && at == old(at) - {x}
    {
      var p := root;
      ghost var s, up := t, None;
      while p != null
        invariant Valid() && t == old(t) && at == old(at)
        invariant Apart(s) && Within(s, up, t) && Find(s, address) == Find(t, address)
        invariant Names(p) && Name(p) == Top(s)
        decreases s
      {
        TopLinks(s, up, t);
        assert Entry(p.info, Shape(t));
        if p.info.address == address {
          RemoveNode(p);
          return p;
        }
        LeftWithin(s, up, t);
        RightWithin(s, up, t);
        if address < p.info.address {
          p := p.left;
          s, up := s.left, Some(s.node);
        } else {
          p := p.right;
          s, up := s.right, Some(s.node);
        }
      }
      n := null;
    }
  }
}
