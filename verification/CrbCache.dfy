/** Request blocks by coprocessor type: primed in batches, handed out, given back and reused. */
module CrbCache {
  import opened Wrappers

  const TYPES: nat := 7
  const DECOMP: nat := 0
  const SYM_CRYPTO: nat := 1
  const ASYM_CRYPTO: nat := 2
  const RNG: nat := 3
  const ASYNC_DATA_MOVER: nat := 4
  const REGX: nat := 5
  const XML: nat := 6
  const BATCH: nat := 50

  /** The sizes of the structures a block is made of. */
  datatype Sizes = Sizes(crb: nat, regx: nat, csb: nat, comp: nat, asym: nat)

  /** What the open device of a type writes into a block: its type and instance into the control word,
      its marker tag. */
  datatype Info = Info(setType: bv32 -> bv32, setInst: bv32 -> bv32, mtId: nat)

  /** Everything the cache depends on and never changes. */
  datatype Env = Env(sizes: Sizes, infos: seq<Info>)

  predicate EnvOk(e: Env) {
    |e.infos| == TYPES
  }

  datatype Memory = Memory(address: nat -> nat, garbage: nat -> byte)

  /** A block as one sees it: the fields that are initialised, and all its other bytes. */
  datatype Image = Image(bytes: seq<byte>, ccw: bv32, mtTag: nat, csb: nat)

  // the size primed; nothing is primed for an unknown type
  function AllocSize(z: Sizes, kind: nat): Option<nat> {
    if kind == XML || kind == REGX then Some(z.regx + z.csb)
    else if kind == DECOMP then Some(z.crb + z.csb + z.comp)
    else if kind == RNG || kind == ASYNC_DATA_MOVER || kind == SYM_CRYPTO then Some(z.crb + z.csb + 16 * 15)
    else if kind == ASYM_CRYPTO then Some(z.crb + z.csb + z.asym)
    else None
  }

  // the size zeroed when a block is given back
  function ZeroSize(z: Sizes, kind: nat): nat {
    if kind == XML || kind == REGX then z.regx + z.csb
    else if kind == DECOMP then z.crb + z.csb + z.comp
    else if kind == RNG || kind == ASYNC_DATA_MOVER || kind == SYM_CRYPTO then z.crb + z.csb + 16 * 15
    else if kind == ASYM_CRYPTO then z.crb + z.csb + z.asym
    else z.crb + z.csb
  }

  function CrbSize(z: Sizes, kind: nat): nat {
    if kind == XML || kind == REGX then z.regx else z.crb
  }

  /** What follows the request and its status block, by type. */
  function Extras(z: Sizes): seq<nat> {
    [z.comp, 240, z.asym, 240, 240, 0, 0]
  }

  /** One layout for priming and giving back: the request, the status block right behind it, and the type's own part;
      requests of the last two types are of their own size. */
  lemma LayoutIs(z: Sizes, kind: nat)
    requires kind < TYPES
    ensures CrbSize(z, kind) == if kind < 5 then z.crb else z.regx
    ensures ZeroSize(z, kind) == CrbSize(z, kind) + z.csb + Extras(z)[kind]
    ensures AllocSize(z, kind) == Some(ZeroSize(z, kind))
  {
    assert kind == 0 || kind == 1 || kind == 2 || kind == 3 || kind == 4 || kind == 5 || kind == 6;
  }

  function Zeros(n: nat): (s: seq<byte>)
    ensures |s| == n && forall i | 0 <= i < n :: s[i] == 0
  {
    seq(n, _ => 0 as byte)
  }

  /** The reference: a block just primed for a type. */
  function Primed(e: Env, address: nat, kind: nat): Image
    requires EnvOk(e) && kind < TYPES
  {
    var info := e.infos[kind];
    Image(Zeros(AllocSize(e.sizes, kind).value), info.setInst(info.setType(0)), info.mtId % 1024,
          address + CrbSize(e.sizes, kind))
  }

  /** A primed block is all zeros but for what names it: its status block's address, and the low ten bits of its marker. */
  lemma PrimedIs(e: Env, address: nat, kind: nat, i: nat)
    requires EnvOk(e) && kind < TYPES && i < |Primed(e, address, kind).bytes|
    ensures var b, z := Primed(e, address, kind), e.sizes;
            && |b.bytes| == CrbSize(z, kind) + z.csb + Extras(z)[kind] && b.bytes[i] == 0
            && b.csb == address + (if kind < 5 then z.crb else z.regx)
            && b.mtTag < 1024 && (e.infos[kind].mtId < 1024 ==> b.mtTag == e.infos[kind].mtId)
            && b.ccw == e.infos[kind].setInst(e.infos[kind].setType(0))
  {
    LayoutIs(e.sizes, kind);
  }

  /** A block given back under a type, whatever its last user left in it. */
  function Recycled(e: Env, address: nat, kind: nat, i: Image): Image
    requires EnvOk(e) && kind < TYPES && ZeroSize(e.sizes, kind) <= |i.bytes|
  {
    var info, n := e.infos[kind], ZeroSize(e.sizes, kind);
    Image(Zeros(n) + i.bytes[n..], info.setInst(info.setType(0)), info.mtId % 1024, address + CrbSize(e.sizes, kind))
  }

  /** A recycled block cannot be told from a freshly primed one if and only if it has the size its type
      is primed with; the blocks of its own type have. */
  lemma RecycledIsPrimedIff(e: Env, address: nat, kind: nat, i: Image)
    requires EnvOk(e) && kind < TYPES && ZeroSize(e.sizes, kind) <= |i.bytes|
    ensures Recycled(e, address, kind, i) == Primed(e, address, kind) <==> Some(|i.bytes|) == AllocSize(e.sizes, kind)
  {
    var n := ZeroSize(e.sizes, kind);
    assert |Recycled(e, address, kind, i).bytes| == |i.bytes|;
    if |i.bytes| == n {
      assert Zeros(n) + i.bytes[n..] == Zeros(n);
    }
  }

  class CrbBlock {
    const address: nat
    var bytes: seq<byte>
    var ccw: bv32
    var mtTag: nat
    var csb: nat

    function View(): Image
      reads this
    {
      Image(bytes, ccw, mtTag, csb)
    }

    // memory from the pool, with whatever is in it
    constructor (address: nat, bytes: seq<byte>)
      ensures this.address == address && this.bytes == bytes
    {
      this.address, this.bytes := address, bytes;
    }

    // memset of the first `n` bytes, which hold the fields as well
    method Clear(n: nat)
      requires n <= |bytes|
      modifies this
      ensures View() == Image(Zeros(n) + old(bytes)[n..], 0, 0, 0)
    {
      bytes := Zeros(n) + bytes[n..];
      ccw, mtTag, csb := 0, 0, 0;
    }

    method Describe(e: Env, kind: nat)
      requires EnvOk(e) && kind < TYPES
      modifies this
      ensures View() == old(View()).(ccw := e.infos[kind].setInst(e.infos[kind].setType(old(ccw))),
                                     mtTag := e.infos[kind].mtId % 1024, csb := address + CrbSize(e.sizes, kind))
    {
      csb := address + CrbSize(e.sizes, kind);
      ccw := e.infos[kind].setType(ccw);
      ccw := e.infos[kind].setInst(ccw);
      mtTag := e.infos[kind].mtId % 1024;
    }
  }

  /** One thread's cache.  `out` holds, for each type, the blocks that have been handed out and not
      given back. */
  class TlsCache {
    const env: Env
    var made: bool
    var lists: seq<seq<CrbBlock>>
    ghost var out: seq<set<CrbBlock>>

    /** A block waiting in a list is as good as new, in one place only, and nobody else has it. */
    ghost predicate Waiting(kind: nat, k: nat)
      requires EnvOk(env) && kind < TYPES == |lists| == |out| && k < |lists[kind]|
      reads this, lists[kind]
    {
      var b := lists[kind][k];
      && b.View() == Primed(env, b.address, kind)
      && (forall j | 0 <= j < |lists[kind]| && j != k :: lists[kind][j] != b)
      && b !in out[kind]
    }

    ghost predicate ListOk(kind: nat)
      requires EnvOk(env) && kind < TYPES == |lists| == |out|
      reads this, lists[kind]
    {
      && (!made ==> lists[kind] == [])
      && forall k {:trigger Waiting(kind, k)} | 0 <= k < |lists[kind]| :: Waiting(kind, k)
    }

    ghost predicate Valid(kind: nat)
      reads this, if kind < |lists| then lists[kind] else []
    {
      EnvOk(env) && kind < TYPES == |lists| == |out| && ListOk(kind)
    }

    ghost function Blocks(): set<CrbBlock>
      reads this
    {
      set j, k | 0 <= j < |lists| && 0 <= k < |lists[j]| :: lists[j][k]
    }

    ghost predicate AllValid()
      reads this, Blocks()
    {
      EnvOk(env) && TYPES == |lists| == |out| && forall kind {:trigger ListOk(kind)} | 0 <= kind < TYPES :: ListOk(kind)
    }

    constructor (env: Env)
      requires EnvOk(env)
      ensures this.env == env && !made && AllValid()
      ensures |lists| == TYPES && lists == seq(TYPES, _ => []) && out == seq(TYPES, _ => {})
    {
      this.env, made := env, false;
      lists, out := seq(TYPES, _ => []), seq(TYPES, _ => {});
    }

    /** Blocks of a type: waiting and handed out. */
    ghost function Held(kind: nat): nat
      requires kind < TYPES == |lists| == |out|
      reads this
    {
      |lists[kind]| + |out[kind]|
    }

    // cop_init_tls_cache
    method Init()
      requires AllValid() && !made
      modifies this`made
      ensures AllValid() && made
    {
      made := true;
      forall kind | 0 <= kind < TYPES
        ensures ListOk(kind)
      {
        assert old(ListOk(kind));
      }
    }

    // dec_push
    method Push(kind: nat, b: CrbBlock)
      requires EnvOk(env) && kind < TYPES == |lists| == |out|
      modifies this`lists
      ensures lists == old(lists)[kind := [b] + old(lists)[kind]]
      ensures old(ListOk(kind)) && made && b.View() == Primed(env, b.address, kind) && b !in old(lists)[kind] && b !in out[kind]
              ==> ListOk(kind)
    {
      ghost var was := lists[kind];
      ghost var good := ListOk(kind) && made && b.View() == Primed(env, b.address, kind) && b !in was && b !in out[kind];
      lists := lists[kind := [b] + lists[kind]];
      if good {
        forall k | 0 <= k < |lists[kind]|
          ensures Waiting(kind, k)
        {
          assert k > 0 ==> old(Waiting(kind, k - 1));
          assert k > 0 ==> lists[kind][k] == was[k - 1] && was[k - 1] in was;
        }
      }
    }

    /** Lists that a method has not touched stay in order. */
    twostate lemma OthersOk(kind: nat)
      requires kind < TYPES && old(AllValid()) && TYPES == |lists| == |out| && ListOk(kind)
      requires forall j | 0 <= j < TYPES && j != kind :: lists[j] == old(lists[j]) && out[j] == old(out[j])
      requires forall j, b | 0 <= j < TYPES && j != kind && b in old(lists[j]) :: unchanged(b)
      requires old(made) ==> made
      ensures AllValid()
    {
      forall j | 0 <= j < TYPES
        ensures ListOk(j)
      {
        if j != kind {
          assert old(ListOk(j));
          forall k | 0 <= k < |lists[j]|
            ensures Waiting(j, k)
          {
            assert old(Waiting(j, k)) && lists[j][k] in old(lists[j]);
          }
        }
      }
    }

    // dec_pop
    method Pop(kind: nat) returns (b: CrbBlock)
      requires AllValid() && kind < TYPES && lists[kind] != []
      modifies this`lists, this`out
      ensures AllValid() && lists == old(lists)[kind := old(lists)[kind][1..]] && b == old(lists)[kind][0]
      ensures b !in old(out)[kind] && out == old(out)[kind := old(out)[kind] + {b}]
    {
      ghost var was := lists[kind];
      assert ListOk(kind) && Waiting(kind, 0);
      b := lists[kind][0];
      lists := lists[kind := lists[kind][1..]];
      out := out[kind := out[kind] + {b}];
      forall k | 0 <= k < |lists[kind]|
        ensures Waiting(kind, k)
      {
        assert old(Waiting(kind, k + 1));
        assert lists[kind][k] == was[k + 1];
      }
      OthersOk(kind);
    }

    // cop_create_and_prime_crbs; `memory` is what the pool hands over: addresses, and what is in them
    method Prime(num: nat, kind: nat, memory: Memory)
      requires AllValid() && kind < TYPES && made
      modifies this`lists
      ensures AllValid() && lists == old(lists)[kind := lists[kind]]
      ensures |lists[kind]| == num + |old(lists)[kind]| && lists[kind][num..] == old(lists)[kind]
    {
      assert ListOk(kind);
      PrimeList(num, kind, memory);
      OthersOk(kind);
    }

    method PrimeList(num: nat, kind: nat, memory: Memory)
      requires Valid(kind) && made
      modifies this`lists
      ensures Valid(kind) && |lists| == |old(lists)| && lists == old(lists)[kind := lists[kind]]
      ensures |lists[kind]| == num + |old(lists)[kind]| && lists[kind][num..] == old(lists)[kind]
    {
      for i := 0 to num
        invariant Valid(kind) && made && |lists| == |old(lists)| && lists == old(lists)[kind := lists[kind]]
        invariant |lists[kind]| == i + |old(lists)[kind]| && lists[kind][i..] == old(lists)[kind]
        invariant forall k | 0 <= k < |lists[kind]| :: fresh(lists[kind][k]) || lists[kind][k] in old(lists)[kind]
      {
        var b := NewBlock(kind, memory, i);
        Push(kind, b);
      }
    }

    method NewBlock(kind: nat, memory: Memory, i: nat) returns (b: CrbBlock)
      requires EnvOk(env) && kind < TYPES
      ensures fresh(b) && b.View() == Primed(env, b.address, kind)
    {
      var size := AllocSize(env.sizes, kind).value;
      b := new CrbBlock(memory.address(i), seq(size, k requires 0 <= k => memory.garbage(k)));
      b.Clear(size);
      b.Describe(env, kind);
      assert b.bytes == Zeros(size);
    }

    // cop_tls_next_crb: what is handed out is as good as new, and nobody else has it
    method NextCrb(kind: nat, memory: Memory) returns (b: CrbBlock)
      requires AllValid() && kind < TYPES
      modifies this`lists, this`out, this`made
      ensures AllValid() && |old(lists)| == |old(out)| == TYPES
      ensures b.View() == Primed(env, b.address, kind) && b !in old(out)[kind]
      ensures out == old(out)[kind := old(out)[kind] + {b}] && lists == old(lists)[kind := lists[kind]]
      ensures old(lists)[kind] != [] ==> [b] + lists[kind] == old(lists)[kind]
      ensures Held(kind) == old(Held(kind)) + if old(lists)[kind] == [] then 50 else 0
    {
      assert ListOk(kind);
      if made {
        if |lists[kind]| == 0 {
          Prime(BATCH, kind, memory);
        }
      } else {
        Init();
        Prime(BATCH, kind, memory);
      }
      assert ListOk(kind) && Waiting(kind, 0);
      b := Pop(kind);
    }

    /** A block filed under a type whose size it does not have is seen to be second-hand. */
    lemma MisfiledIsSeen(kind: nat)
      requires EnvOk(env) && kind < TYPES == |lists| == |out| && lists[kind] != []
      requires Some(|lists[kind][0].bytes|) != AllocSize(env.sizes, kind)
      ensures !AllValid()
    {
      assert ListOk(kind) ==> Waiting(kind, 0);
    }

    // cop_tls_give_back_crb: a block from this cache or another thread's; its size is not looked at
    method GiveBack(b: CrbBlock, kind: nat)
      requires AllValid() && kind < TYPES && b !in Blocks() && ZeroSize(env.sizes, kind) <= |b.bytes|
      modifies this`lists, this`out, this`made, b
      ensures |old(lists)| == |old(out)| == TYPES
      ensures lists == old(lists)[kind := [b] + old(lists)[kind]] && out == old(out)[kind := old(out)[kind] - {b}]
      ensures b.View() == Recycled(env, b.address, kind, old(b.View()))
      ensures AllValid() <==> Some(|old(b.bytes)|) == AllocSize(env.sizes, kind)
      ensures Held(kind) == old(Held(kind)) + if b in old(out)[kind] then 0 else 1
    {
      RecycledIsPrimedIff(env, b.address, kind, b.View());
      b.Clear(ZeroSize(env.sizes, kind));
      b.Describe(env, kind);
      if !made {
        Init();
      }
      out := out[kind := out[kind] - {b}];
      assert ListOk(kind) by {
        forall k | 0 <= k < |lists[kind]|
          ensures Waiting(kind, k)
        {
          assert old(ListOk(kind)) && old(Waiting(kind, k));
        }
      }
      Push(kind, b);
      if Some(|b.bytes|) == AllocSize(env.sizes, kind) {
        OthersOk(kind);
      } else {
        MisfiledIsSeen(kind);
      }
    }

    // cop_tls_set_minimum_num_crbs
    method SetMinimum(kind: nat, num: nat, memory: Memory)
      requires AllValid() && kind < TYPES
      modifies this`lists, this`made
      ensures AllValid() && |old(lists)| == TYPES
      ensures |lists[kind]| == if |old(lists)[kind]| < num then num else |old(lists)[kind]|
      ensures lists == old(lists)[kind := lists[kind]]
      ensures lists[kind][|lists[kind]| - |old(lists)[kind]|..] == old(lists)[kind]
      ensures Held(kind) == old(Held(kind)) + (|lists[kind]| - |old(lists)[kind]|)
    {
      if !made {
        Init();
      }
      var curnum := |lists[kind]|;
      if curnum < num {
        Prime(num - curnum, kind, memory);
      }
    }
  }
}
