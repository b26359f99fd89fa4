/** Walking the list of mapped blocks: the pool can only pop it, so every block goes to a second
    stack and back. */
module BlockList {
  import opened Deq
  import opened Pool
  import opened Wrappers

  const PAGE: nat := 4096

  function Reversed<T>(s: seq<T>): (r: seq<T>)
    ensures |r| == |s|
  {
    if |s| == 0 then [] else Reversed(s[1..]) + [s[0]]
  }

  /** The addresses touched in one block. */
  function Pages(base: nat, length: nat): seq<nat>
    decreases length
  {
    if length == 0 then [] else if length <= PAGE then [base] else [base] + Pages(base + PAGE, length - PAGE)
  }

  lemma {:induction false} PagesAt(base: nat, length: nat)
    ensures forall i | 0 <= i < |Pages(base, length)| :: Pages(base, length)[i] == base + PAGE * i
    decreases length
  {
    if length > PAGE {
      PagesAt(base + PAGE, length - PAGE);
    }
  }

  /** One address in every 4096 bytes, from the base on, and no more. */
  lemma PagesAre(base: nat, length: nat)
    ensures |Pages(base, length)| == (length + 4095) / 4096
    ensures forall i | 0 <= i < |Pages(base, length)| :: Pages(base, length)[i] == base + 4096 * i
  {
    PagesAt(base, length);
    PageCount(base, length, (length + 4095) / 4096);
  }

  function AllPages(blocks: seq<Block>): seq<nat> {
    if |blocks| == 0 then [] else Pages(blocks[0].base, blocks[0].length) + AllPages(blocks[1..])
  }

  lemma {:induction false} PagesPlus(base: nat, length: nat, done: nat)
    requires PAGE * done < length
    ensures |Pages(base, length)| > done
    ensures Pages(base, length) == Pages(base, PAGE * done) + Pages(base + PAGE * done, length - PAGE * done)
    decreases done
  {
    if done > 0 {
      var rest := PAGE * (done - 1);
      assert PAGE * done == PAGE + rest;
      PagesPlus(base + PAGE, length - PAGE, done - 1);
      assert Pages(base, length) == [base] + Pages(base + PAGE, length - PAGE);
      assert Pages(base, PAGE * done) == [base] + Pages(base + PAGE, rest);
    }
  }

  lemma Associative(a: seq<nat>, b: seq<nat>, c: seq<nat>)
    ensures (a + b) + c == a + (b + c)
  {
  }

  lemma {:induction false} AllPagesPlus(a: seq<Block>, b: seq<Block>)
    ensures AllPages(a + b) == AllPages(a) + AllPages(b)
  {
    if |a| == 0 {
      assert a + b == b;
    } else {
      AllPagesPlus(a[1..], b);
      assert (a + b)[1..] == a[1..] + b;
      Associative(Pages(a[0].base, a[0].length), AllPages(a[1..]), AllPages(b));
    }
  }

  /** Touching these addresses faults in every byte of every block. */
  lemma {:induction false} EveryByteIsFaultedIn(blocks: seq<Block>, k: nat, offset: nat) returns (i: nat)
    requires k < |blocks| && offset < blocks[k].length
    ensures i < |AllPages(blocks)|
    ensures AllPages(blocks)[i] <= blocks[k].base + offset < AllPages(blocks)[i] + 4096
    decreases k
  {
    var first := Pages(blocks[0].base, blocks[0].length);
    if k == 0 {
      i := offset / PAGE;
      PagesPlus(blocks[0].base, blocks[0].length, i);
      PagesAt(blocks[0].base, blocks[0].length);
    } else {
      var j := EveryByteIsFaultedIn(blocks[1..], k - 1, offset);
      i := |first| + j;
    }
  }

  lemma {:induction false} ReversedPlus<T>(a: seq<T>, x: T)
    ensures Reversed(a + [x]) == [x] + Reversed(a)
  {
    if |a| == 0 {
      assert a + [x] == [x];
    } else {
      ReversedPlus(a[1..], x);
      assert (a + [x])[1..] == a[1..] + [x];
    }
  }

  method TouchBlock(b: Block) returns (touched: seq<nat>)
    ensures touched == Pages(b.base, b.length)
  {
    var memory, length := b.base, 0;
    touched := [];
    ghost var k := 0;
    while length < b.length
      invariant length == PAGE * k && memory == b.base + length && |touched| == k
      invariant forall i | 0 <= i < k :: touched[i] == b.base + PAGE * i
      invariant k == 0 || PAGE * (k - 1) < b.length
      decreases b.length + PAGE - length
    {
      touched := touched + [memory];
      memory := memory + PAGE;
      length := length + PAGE;
      k := k + 1;
    }
    PageCount(b.base, b.length, k);
    PagesAt(b.base, b.length);
  }

  lemma {:induction false} PageCount(base: nat, length: nat, k: nat)
    requires PAGE * k >= length && (k == 0 || PAGE * (k - 1) < length)
    ensures |Pages(base, length)| == k
    decreases k
  {
    if k > 1 {
      PageCount(base + PAGE, length - PAGE, k - 1);
    }
  }

  /** One turn of the walks: what was popped goes to the other stack, and the next is popped. */
  method Move<T>(d: DecRoot<T>, t: DecRoot<T>, x: T) returns (r: Option<T>)
    requires d.Valid() && t.Valid() && d != t
    modifies d, d.cells, t, t.cells
    ensures d.Valid() && t.Valid() && d.cells == old(d.cells)
    ensures fresh(t.cells - old(t.cells)) && old(t.cells) <= t.cells
    ensures t.items == [x] + old(t.items)
    ensures r == (if old(d.items) == [] then None else Some(old(d.items)[0]))
    ensures d.items == if old(d.items) == [] then [] else old(d.items)[1..]
  {
    t.Push(x);
    r := d.Pop();
  }

  /** Where a walk over `all` is: `range` is the block in hand, `left` the stack being emptied,
      `moved` the one being filled. */
  ghost predicate At<T>(all: seq<T>, k: nat, range: Option<T>, left: seq<T>, moved: seq<T>) {
    && k <= |all| && moved == Reversed(all[..k])
    && (range.Some? ==> k < |all| && range.value == all[k] && left == all[k + 1..])
    && (range.None? ==> k == |all| && left == [])
  }

  lemma Turn<T>(all: seq<T>, k: nat, x: T, left: seq<T>, moved: seq<T>)
    requires At(all, k, Some(x), left, moved)
    ensures all[..k + 1] == all[..k] + [x]
    ensures left == [] ==> At(all, k + 1, None, [], [x] + moved)
    ensures left != [] ==> At(all, k + 1, Some(left[0]), left[1..], [x] + moved)
  {
    assert all[..k + 1] == all[..k] + [all[k]];
    ReversedPlus(all[..k], all[k]);
  }

  /** Move, and where the walk then is. */
  method MoveOn<T>(d: DecRoot<T>, t: DecRoot<T>, x: T, ghost all: seq<T>, ghost k: nat) returns (r: Option<T>)
    requires d.Valid() && t.Valid() && d != t && At(all, k, Some(x), d.items, t.items)
    modifies d, d.cells, t, t.cells
    ensures d.Valid() && t.Valid() && d.cells == old(d.cells)
    ensures fresh(t.cells - old(t.cells)) && old(t.cells) <= t.cells
    ensures At(all, k + 1, r, d.items, t.items) && all[..k + 1] == all[..k] + [x]
  {
    Turn(all, k, x, d.items, t.items);
    r := Move(d, t, x);
  }

  // the second half of both walks: everything back where it came from
  method PourBack<T>(t: DecRoot<T>, d: DecRoot<T>)
    requires t.Valid() && d.Valid() && t != d && d.items == []
    modifies t, t.cells, d, d.cells
    ensures t.Valid() && d.Valid() && t.items == [] && d.items == Reversed(old(t.items))
    ensures fresh(d.cells - old(d.cells)) && t.cells == old(t.cells)
  {
    ghost var all := t.items;
    ghost var k := 0;
    var range := t.Pop();
    while range.Some?
      invariant t.Valid() && d.Valid() && At(all, k, range, t.items, d.items)
      invariant fresh(d.cells - old(d.cells)) && t.cells == old(t.cells)
      decreases |all| - k + (if range.Some? then 1 else 0)
    {
      range := MoveOn(t, d, range.value, all, k);
      k := k + 1;
    }
    assert all[..k] == all;
  }

  lemma {:induction false} ReversedTwice<T>(s: seq<T>)
    ensures Reversed(Reversed(s)) == s
  {
    if |s| > 0 {
      ReversedPlus(Reversed(s[1..]), s[0]);
      ReversedTwice(s[1..]);
    }
  }

  // one turn of the walk
  method TouchTurn(d: DecRoot<Block>, t: DecRoot<Block>, x: Block, touched: seq<nat>, ghost all: seq<Block>, ghost k: nat)
      returns (more: seq<nat>, r: Option<Block>)
    requires d.Valid() && t.Valid() && d != t && At(all, k, Some(x), d.items, t.items) && touched == AllPages(all[..k])
    modifies d, d.cells, t, t.cells
    ensures d.Valid() && t.Valid() && d.cells == old(d.cells)
    ensures fresh(t.cells - old(t.cells)) && old(t.cells) <= t.cells
    ensures At(all, k + 1, r, d.items, t.items) && more == AllPages(all[..k + 1])
  {
    var pages := TouchBlock(x);
    more := touched + pages;
    OneMoreBlock(all, k);
    r := MoveOn(d, t, x, all, k);
  }

  // the first half of cop_touch_pool
  method TouchOut(d: DecRoot<Block>, t: DecRoot<Block>) returns (touched: seq<nat>)
    requires d.Valid() && t.Valid() && d != t && t.items == []
    modifies d, d.cells, t, t.cells
    ensures d.Valid() && t.Valid() && d.cells == old(d.cells) && fresh(t.cells - old(t.cells))
    ensures d.items == [] && t.items == Reversed(old(d.items)) && touched == AllPages(old(d.items))
  {
    ghost var all := d.items;
    ghost var k := 0;
    touched := [];
    var range := d.Pop();
    while range.Some?
      invariant t.Valid() && d.Valid() && At(all, k, range, d.items, t.items)
      invariant d.cells == old(d.cells) && fresh(t.cells - old(t.cells))
      invariant touched == AllPages(all[..k])
      decreases |all| - k + (if range.Some? then 1 else 0)
    {
      touched, range := TouchTurn(d, t, range.value, touched, all, k);
      k := k + 1;
    }
    assert all[..k] == all;
  }

  lemma OneMoreBlock(all: seq<Block>, k: nat)
    requires k < |all|
    ensures AllPages(all[..k + 1]) == AllPages(all[..k]) + Pages(all[k].base, all[k].length)
  {
    AllPagesPlus(all[..k], [all[k]]);
    assert all[..k + 1] == all[..k] + [all[k]];
    assert AllPages([all[k]]) == Pages(all[k].base, all[k].length);
  }

  // cop_touch_pool
  method TouchPool(d: DecRoot<Block>) returns (touched: seq<nat>)
    requires d.Valid()
    modifies d, d.cells
    ensures d.Valid() && fresh(d.cells - old(d.cells))
    ensures d.items == old(d.items) && touched == AllPages(d.items)
  {
    var t := new DecRoot<Block>();
    touched := TouchOut(d, t);
    ReversedTwice(old(d.items));
    PourBack(t, d);
  }

  /** How many blocks are mapped before the first one that the system refuses. */
  function MappedCount(blocks: seq<Block>, refused: set<Block>): (k: nat)
    ensures k <= |blocks|
  {
    if |blocks| == 0 || blocks[0] in refused then 0 else 1 + MappedCount(blocks[1..], refused)
  }

  lemma {:induction false} MappedCountIs(blocks: seq<Block>, refused: set<Block>)
    ensures var k := MappedCount(blocks, refused);
            (forall i | 0 <= i < k :: blocks[i] !in refused) && (k < |blocks| ==> blocks[k] in refused)
  {
    if |blocks| > 0 && blocks[0] !in refused {
      MappedCountIs(blocks[1..], refused);
    }
  }

  /** What remapping does to memory and asks of the system, in order. */
  datatype Effect = Touch(address: nat) | Map(block: Block)

  function Touches(pages: seq<nat>): seq<Effect> {
    seq(|pages|, k requires 0 <= k < |pages| => Touch(pages[k]))
  }

  /** Every page of each block is touched, and then the block is mapped. */
  function Remapping(blocks: seq<Block>): seq<Effect> {
    if |blocks| == 0 then []
    else
      var b := blocks[|blocks| - 1];
      Remapping(blocks[..|blocks| - 1]) + Touches(Pages(b.base, b.length)) + [Map(b)]
  }

  lemma RemapOneMore(all: seq<Block>, k: nat)
    requires k < |all|
    ensures Remapping(all[..k + 1]) == Remapping(all[..k]) + Touches(Pages(all[k].base, all[k].length)) + [Map(all[k])]
  {
    assert all[..k + 1][..k] == all[..k];
  }

  method MapBlock(b: Block, refused: set<Block>, done: seq<Effect>) returns (ok: bool, more: seq<Effect>)
    ensures ok == (b !in refused) && more == done + Touches(Pages(b.base, b.length)) + [Map(b)]
  {
    var pages := TouchBlock(b);
    more := done + Touches(pages) + [Map(b)];
    ok := b !in refused;
  }

  /** How many blocks are tried: those mapped, and the first one refused. */
  function Tried(blocks: seq<Block>, refused: set<Block>): (k: nat)
    ensures k <= |blocks|
  {
    var mapped := MappedCount(blocks, refused);
    if mapped < |blocks| then mapped + 1 else mapped
  }

  // one turn of the walk: the block is mapped and goes to the other stack, or the process ends
  method MapTurn(d: DecRoot<Block>, t: DecRoot<Block>, x: Block, refused: set<Block>, done: seq<Effect>,
                 ghost all: seq<Block>, ghost k: nat) returns (exited: bool, more: seq<Effect>, r: Option<Block>)
    requires d.Valid() && t.Valid() && d != t && At(all, k, Some(x), d.items, t.items)
    requires done == Remapping(all[..k]) && k <= MappedCount(all, refused)
    modifies d, d.cells, t, t.cells
    ensures d.Valid() && t.Valid() && d.cells == old(d.cells)
    ensures fresh(t.cells - old(t.cells)) && old(t.cells) <= t.cells
    ensures k < |all|
    ensures exited ==> more == Remapping(all[..Tried(all, refused)]) && MappedCount(all, refused) < |all|
    ensures !exited ==> At(all, k + 1, r, d.items, t.items) && more == Remapping(all[..k + 1]) && k < MappedCount(all, refused)
  {
    var ok;
    ok, more := MapBlock(x, refused, done);
    MapOneMore(all, k, refused);
    RemapOneMore(all, k);
    if !ok {
      return true, more, None;
    }
    r := MoveOn(d, t, x, all, k);
    exited := false;
  }

  lemma AllTried(all: seq<Block>, refused: set<Block>, k: nat)
    requires |all| == k <= MappedCount(all, refused)
    ensures Remapping(all[..k]) == Remapping(all[..Tried(all, refused)]) && MappedCount(all, refused) == |all|
    ensures Reversed(all[..k]) == Reversed(all)
  {
    assert all[..k] == all;
  }

  // the first half of cop_remap_pool
  method MapOut(d: DecRoot<Block>, t: DecRoot<Block>, refused: set<Block>) returns (done: seq<Effect>, exited: bool)
    requires d.Valid() && t.Valid() && d != t && t.items == []
    modifies d, d.cells, t, t.cells
    ensures d.Valid() && t.Valid() && d.cells == old(d.cells) && fresh(t.cells - old(t.cells))
    ensures done == Remapping(old(d.items)[..Tried(old(d.items), refused)])
    ensures exited <==> MappedCount(old(d.items), refused) < |old(d.items)|
    ensures !exited ==> d.items == [] && t.items == Reversed(old(d.items))
  {
    ghost var all := d.items;
    ghost var k := 0;
    done, exited := [], false;
    var range := d.Pop();
    while range.Some?
      invariant t.Valid() && d.Valid() && At(all, k, range, d.items, t.items)
      invariant d.cells == old(d.cells) && fresh(t.cells - old(t.cells))
      invariant done == Remapping(all[..k]) && k <= MappedCount(all, refused) && !exited
      decreases |all| - k + (if range.Some? then 1 else 0)
    {
      exited, done, range := MapTurn(d, t, range.value, refused, done, all, k);
      if exited {
        return;
      }
      k := k + 1;
    }
    AllTried(all, refused, k);
  }

  lemma MapOneMore(all: seq<Block>, k: nat, refused: set<Block>)
    requires k < |all| && k <= MappedCount(all, refused)
    ensures if all[k] !in refused then k < MappedCount(all, refused) else k == MappedCount(all, refused)
  {
    MappedCountIs(all, refused);
  }

  // cop_remap_pool; `exited` is the exit of the whole process on a refused block
  method RemapPool(d: DecRoot<Block>, open: bool, refused: set<Block>) returns (done: seq<Effect>, exited: bool)
    requires d.Valid()
    modifies d, d.cells
    ensures d.Valid() && fresh(d.cells - old(d.cells))
    ensures !exited ==> d.items == old(d.items)
    ensures !open ==> done == [] && !exited
    ensures open ==> done == Remapping(old(d.items)[..Tried(old(d.items), refused)])
    ensures open ==> (exited <==> exists b :: b in old(d.items) && b in refused)
  {
    done, exited := [], false;
    if open {
      var t := new DecRoot<Block>();
      done, exited := MapOut(d, t, refused);
      MappedCountIs(old(d.items), refused);
      if exited {
        assert old(d.items)[MappedCount(old(d.items), refused)] in old(d.items);
      } else {
        ReversedTwice(old(d.items));
        PourBack(t, d);
      }
    }
  }
}
