/** The stack with recycled cells. */
module Deq {
  import opened Wrappers

  /** `owner` is the stack whose cell this is: cells never move between stacks. */
  class Cell<T> {
    var next: Cell?<T>
    var contents: Option<T>
    ghost const owner: DecRoot<T>

    constructor (next: Cell?<T>, ghost owner: DecRoot<T>)
      ensures this.next == next && contents == None && this.owner == owner
    {
      this.next := next;
      contents := None;
      this.owner := owner;
    }
  }

  /** `items` is what is on the stack, top first; `live` and `spare` are the cells of the stack and
      of the free list, in link order, all of them among `cells`. */
  class DecRoot<T> {
    var root: Cell?<T>
    var freelist: Cell?<T>
    var size: nat
    ghost var items: seq<T>
    ghost var live: seq<Cell<T>>
    ghost var spare: seq<Cell<T>>
    ghost var cells: set<Cell<T>>

    static function Nth(cs: seq<Cell<T>>, i: nat): Cell?<T> {
      if i < |cs| then cs[i] else null
    }

    static ghost predicate Step(cs: seq<Cell<T>>, i: nat)
      requires i < |cs|
      reads cs[i]
    {
      cs[i].next == Nth(cs, i + 1)
    }

    static ghost predicate Linked(first: Cell?<T>, cs: seq<Cell<T>>)
      reads cs
    {
      first == Nth(cs, 0) && forall i {:trigger Step(cs, i)} | 0 <= i < |cs| :: Step(cs, i)
    }

    static ghost predicate Apart(a: seq<Cell<T>>, b: seq<Cell<T>>) {
      && (forall i, j | 0 <= i < j < |a| :: a[i] != a[j])
      && (forall i, j | 0 <= i < j < |b| :: b[i] != b[j])
      && (forall i, j | 0 <= i < |a| && 0 <= j < |b| :: a[i] != b[j])
    }

    /** Live and recycled cells are never shared, `size` is the stack's height, and each live cell
        holds its item. */
    ghost predicate Valid()
      reads this, cells
    {
      && (forall c | c in cells :: c.owner == this)
      && (forall i | 0 <= i < |live| :: live[i] in cells)
      && (forall i | 0 <= i < |spare| :: spare[i] in cells)
      && Linked(root, live) && Linked(freelist, spare)
      && Apart(live, spare)
      && size == |live| == |items|
      && forall i | 0 <= i < |live| :: live[i].contents == Some(items[i])
    }

    // dec_init: six recycled cells and an empty stack
    constructor ()
      ensures Valid() && items == [] && |spare| == 6
      ensures fresh(cells)
    {
      root, freelist, size := null, null, 0;
      items, live, spare, cells := [], [], [], {};
      new;
      for i := 0 to 6
        invariant |spare| == i && Valid() && items == []
        invariant fresh(cells)
      {
        var n := new Cell<T>(freelist, this);
        ghost var rest := spare;
        freelist := n;
        spare := [n] + spare;
        cells := cells + {n};
        forall k | 0 <= k < |spare|
          ensures Step(spare, k)
        {
          assert k > 0 ==> Step(rest, k - 1);
        }
      }
    }

    // a cell from the free list, or a new one
    method TakeCell() returns (n: Cell<T>)
      requires Valid()
      modifies this`freelist, this`spare, this`cells
      ensures Valid() && n in cells && n !in live && n !in spare
      ensures fresh(cells - old(cells)) && old(cells) <= cells
      ensures old(spare) != [] ==> n == old(spare)[0] && spare == old(spare)[1..]
      ensures old(spare) == [] ==> fresh(n) && spare == []
    {
      if freelist != null {
        n := freelist;
        assert Step(spare, 0);
        freelist := freelist.next;
        spare := spare[1..];
        forall k | 0 <= k < |spare|
          ensures Step(spare, k)
        {
          assert old(Step(spare, k + 1));
        }
      } else {
        n := new Cell<T>(null, this);
        cells := cells + {n};
      }
    }

    method Push(x: T)
      requires Valid()
      modifies this, cells
      ensures Valid() && items == [x] + old(items)
      ensures fresh(cells - old(cells)) && old(cells) <= cells
      ensures old(spare) != [] ==> spare == old(spare)[1..] && live == [old(spare)[0]] + old(live)
    {
      var n := TakeCell();
      PutOnTop(n, x);
    }

    method PutOnTop(n: Cell<T>, x: T)
      requires Valid() && n in cells && n !in live && n !in spare
      modifies this`root, this`size, this`live, this`items, n
      ensures Valid() && items == [x] + old(items) && live == [n] + old(live)
    {
      size := size + 1;
      n.contents := Some(x);
      n.next := root;
      root := n;
      live := [n] + live;
      items := [x] + items;
      forall k | 0 <= k < |live|
        ensures Step(live, k)
      {
        assert k > 0 ==> old(Step(live, k - 1));
      }
      forall k | 0 <= k < |spare|
        ensures Step(spare, k)
      {
        assert old(Step(spare, k));
      }
    }

    /** NULL, here None, when there is nothing to pop; the emptied cell is the next to be reused. */
    method Pop() returns (x: Option<T>)
      requires Valid()
      modifies this, cells
      ensures Valid() && cells == old(cells)
      ensures old(items) == [] ==> x == None && items == []
      ensures old(items) != [] ==> x == Some(old(items)[0]) && items == old(items)[1..]
      ensures old(items) != [] ==> spare == [old(live)[0]] + old(spare) && spare[0].contents == None
    {
      var n := root;
      x := None;
      if size > 0 {
        assert Step(live, 0);
        root := root.next;
        x := n.contents;
        n.next := freelist;
        freelist := n;
        n.contents := None;
        size := size - 1;
        live, spare, items := live[1..], [n] + spare, items[1..];
        forall k | 0 <= k < |live|
          ensures Step(live, k)
        {
          assert old(Step(live, k + 1));
        }
        forall k | 0 <= k < |spare|
          ensures Step(spare, k)
        {
          assert k > 0 ==> old(Step(spare, k - 1));
        }
      }
    }
  }
}
