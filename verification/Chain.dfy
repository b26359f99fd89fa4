/** Setting up the request block of a chained decompression: the first block, the middle and last
    ones, and a resume with a further target. */
module Chain {
  const MIDDLE: nat := 0
  const LAST: nat := 1
  const FIRST: nat := 2

  const RESUME: bv8 := 0x80
  const DDE_PRESENT: bv8 := 0x08
  const EINVAL: int := 22

  /** A data descriptor; `bytes` is 32 bits wide, a data address of 0 is the null pointer. */
  datatype Dde = Dde(data: nat, bytes: nat, count: nat)

  /** The fields of the request block the setup functions write, and the status block's valid bit
      and chain field. */
  datatype Request = Request(flags: bv8, seqNum: nat, ch: nat, src: Dde, tgt: Dde, valid: bool, statusCh: nat)

  function Direct(data: nat, size: nat): Dde {
    Dde(data, size % 0x1_0000_0000, 0)
  }

  predicate Given(data: nat, size: nat) {
    data != 0 && size != 0
  }

  predicate IsFormat(f: bv8) {
    f == 0x00 || f == 0x10 || f == 0x20
  }

  function First(r: Request, src: nat, srcSize: nat, tgt: nat, tgtSize: nat, format: bv8, ch: nat): (Request, int) {
    if !Given(src, srcSize) || !Given(tgt, tgtSize) then (r, -EINVAL)
    else (Request(format | DDE_PRESENT, 0, ch, Direct(src, srcSize), Direct(tgt, tgtSize), false, LAST), 0)
  }

  /** The setups that refuse leave the block alone and say so; the others write a direct descriptor of the low 32 bits of
      the size. */
  lemma RefusedIff(r: Request, src: nat, srcSize: nat, tgt: nat, tgtSize: nat, format: bv8, ch: nat)
    ensures var (q, rc) := First(r, src, srcSize, tgt, tgtSize, format, ch);
            if src == 0 || srcSize == 0 || tgt == 0 || tgtSize == 0 then q == r && rc == -22
            else rc == 0 && q.src == Dde(src, srcSize % 0x1_0000_0000, 0) && q.tgt == Dde(tgt, tgtSize % 0x1_0000_0000, 0)
    ensures var (q, rc) := Resume(r, tgt, tgtSize, format);
            if tgt == 0 || tgtSize == 0 then q == r && rc == -22
            else rc == 0 && q.tgt == Dde(tgt, tgtSize % 0x1_0000_0000, 0) && q.src == r.src
  {
  }

  function Next(r: Request, src: nat, srcSize: nat, tgt: nat, tgtSize: nat, ch: nat): Request {
    Request(
      (if Given(tgt, tgtSize) then r.flags | DDE_PRESENT else r.flags & !DDE_PRESENT) & !RESUME,
      (r.seqNum + 1) % 256,
      ch,
      if Given(src, srcSize) then Direct(src, srcSize) else r.src,
      if Given(tgt, tgtSize) then Direct(tgt, tgtSize) else r.tgt,
      false,
      r.statusCh)
  }

  function Resume(r: Request, tgt: nat, tgtSize: nat, format: bv8): (Request, int) {
    if !Given(tgt, tgtSize) then (r, -EINVAL)
    else (r.(flags := RESUME | format | DDE_PRESENT, tgt := Direct(tgt, tgtSize), valid := false), 0)
  }

  class Crb {
    var flags: bv8
    var seqNum: nat
    var ch: nat
    var src: Dde
    var tgt: Dde
    var valid: bool
    var statusCh: nat

    function View(): Request
      reads this
    {
      Request(flags, seqNum, ch, src, tgt, valid, statusCh)
    }

    // cop_decomp_setup_fo
    method SetupFirst(src: nat, srcSize: nat, tgt: nat, tgtSize: nat, format: bv8, ch: nat) returns (rc: int)
      modifies this
      ensures (View(), rc) == First(old(View()), src, srcSize, tgt, tgtSize, format, ch)
    {
      if src == 0 || srcSize == 0 || tgt == 0 || tgtSize == 0 {
        return -EINVAL;
      }
      seqNum := 0;
      this.src := Dde(src, srcSize % 0x1_0000_0000, 0);
      this.tgt := Dde(tgt, tgtSize % 0x1_0000_0000, 0);
      flags := format | DDE_PRESENT;
      valid := false;
      statusCh := LAST;
      this.ch := ch;
      rc := 0;
    }

    // cop_decomp_setup_ml
    method SetupNext(src: nat, srcSize: nat, tgt: nat, tgtSize: nat, ch: nat)
      modifies this
      ensures View() == Next(old(View()), src, srcSize, tgt, tgtSize, ch)
    {
      var f := flags;
      valid := false;
      seqNum := (seqNum + 1) % 256;
      if src != 0 && srcSize != 0 {
        this.src := Dde(src, srcSize % 0x1_0000_0000, 0);
      }
      if tgt != 0 && tgtSize != 0 {
        this.tgt := Dde(tgt, tgtSize % 0x1_0000_0000, 0);
        f := f | DDE_PRESENT;
      } else {
        f := f & !DDE_PRESENT;
      }
      flags := f & !RESUME;
      this.ch := ch;
    }

    // cop_decomp_addtgt_rsm_setup
    method SetupResume(tgt: nat, tgtSize: nat, format: bv8) returns (rc: int)
      modifies this
      ensures (View(), rc) == Resume(old(View()), tgt, tgtSize, format)
    {
      if tgt == 0 || tgtSize == 0 {
        return -EINVAL;
      }
      flags := RESUME | format | DDE_PRESENT;
      this.tgt := Dde(tgt, tgtSize % 0x1_0000_0000, 0);
      valid := false;
      rc := 0;
    }
  }
}
