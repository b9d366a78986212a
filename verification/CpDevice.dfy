/** The command processor as the object the runtime keeps (`cp.c`): raw 16-bit
    registers, of which pairs make up the 32-bit FIFO registers, and the flags
    decoded from them. */
module CpDevice {
  import opened Arithmetic
  import opened Bytes
  import opened CommandFifo

  const REGS := 0x800            // 16-bit registers in the window
  const CTRL := 0x02
  const PERF_SELECT := 0x06
  const UNK_0A := 0x0A
  const FIFO_FIRST := 0x20
  const FIFO_LAST := 0x3E
  const BASE_LO := 0x20
  const END_LO := 0x24
  const HI_WM_LO := 0x28
  const LO_WM_LO := 0x2C
  const DIST_LO := 0x30
  const WPTR_LO := 0x34
  const RPTR_LO := 0x38
  const BP_LO := 0x3C

  predicate IsFifoRegister(off: nat) {
    FIFO_FIRST <= off <= FIFO_LAST
  }

  /** The bits of a FIFO half that exist: 26-bit pointers, 32-byte aligned. */
  function Kept(off: nat, value: u16): u16 {
    if off / 2 % 2 == 1 then value % 0x400 else value - value % 32
  }

  /** Is the control bit of weight `w` set? */
  predicate Bit(value: u16, w: nat)
    requires w > 0
  {
    value / w % 2 == 1
  }

  /** A 32-bit value stored in two halves keeps its low 26 bits, rounded down to
      32. */
  lemma PairIsKept(off: nat, v: u32)
    requires off % 4 == 0
    ensures 0x1_0000 * (Kept(off + 2, v / 0x1_0000) as int) + Kept(off, v % 0x1_0000) as int == v % 0x400_0000 - v % 32
  {
    var h, l := v / 0x1_0000, v % 0x1_0000;
    assert v == 0x1_0000 * h + l && h == 0x400 * (h / 0x400) + h % 0x400;
    DivModUnique(v, 0x400_0000, h / 0x400, 0x1_0000 * (h % 0x400) + l);
    DivModUnique(v, 32, 0x800 * h + l / 32, l % 32);
  }

  lemma PairAligned(high: u16, low: u16)
    ensures (0x1_0000 * (high as int) + low as int) % CHUNK == 0 <==> low % CHUNK == 0
  {
  }

  /** The mask keeps the bits below the seventh as they are. */
  lemma LowBit(v: u16, w: nat, k: nat)
    requires w > 0 && k > 0 && w * (2 * k) == 64
    ensures Bit(v % 64, w) == Bit(v, w)
  {
    var q, r := v / 64, v % 64;
    assert v == r + w * (2 * k * q);
    DivModAdd(r, w, 2 * k * q);
    assert v / w == r / w + 2 * (k * q);
  }

  lemma LowBits(v: u16)
    ensures Bit(v % 64, 1) == Bit(v, 1) && Bit(v % 64, 2) == Bit(v, 2) && Bit(v % 64, 4) == Bit(v, 4)
    ensures Bit(v % 64, 8) == Bit(v, 8) && Bit(v % 64, 16) == Bit(v, 16) && Bit(v % 64, 32) == Bit(v, 32)
  {
    hide Bit;
    LowBit(v, 1, 32);
    LowBit(v, 2, 16);
    LowBit(v, 4, 8);
    LowBit(v, 8, 4);
    LowBit(v, 16, 2);
    LowBit(v, 32, 1);
  }

  class CommandProcessor {
    const reg: array<u16>
    var readEnable: bool
    var bpEnable: bool
    var hiInt: bool
    var loInt: bool
    var link: bool
    var bpInt: bool
    var hi: bool
    var lo: bool
    var breakpoint: bool
    var irq: bool

    ghost predicate Valid()
    {
      reg.Length == REGS
    }

    /** The 32-bit view of the pair whose low half is at `lo`. */
    function U32(lo: nat): u32
      requires Valid() && lo / 2 + 1 < REGS
      reads reg
    {
      0x1_0000 * (reg[lo / 2 + 1] as int) + reg[lo / 2] as int
    }

    function View(): Cp
      requires Valid()
      reads this, reg
    {
      Cp(U32(BASE_LO), U32(END_LO), U32(HI_WM_LO), U32(LO_WM_LO),
         U32(DIST_LO), U32(WPTR_LO), U32(RPTR_LO), U32(BP_LO),
         readEnable, bpEnable, hiInt, loInt, link, bpInt, hi, lo, breakpoint, irq)
    }

    constructor ()
      ensures Valid() && fresh(reg)
      ensures View() == Cp(0, 0, 0, 0, 0, 0, 0, 0, false, false, false, false, false, false, false, false, false, false)
    {
      reg := new u16[REGS](i => 0);
      readEnable, bpEnable, hiInt, loInt, link, bpInt := false, false, false, false, false, false;
      hi, lo, breakpoint, irq := false, false, false, false;
    }

    method SetU32(lo: nat, v: u32)
      requires Valid() && lo / 2 + 1 < REGS && lo % 4 == 0
      modifies reg
      ensures U32(lo) == v
      ensures forall other :: 0 <= other / 2 < REGS - 1 && other % 4 == 0 && other != lo ==> U32(other) == old(U32(other))
    {
      reg[lo / 2] := v % 0x1_0000;
      reg[lo / 2 + 1] := v / 0x1_0000;
    }

    method UpdateInterrupts()
      requires Valid()
      modifies `hi, `lo, `irq
      ensures View() == Evaluate(old(View()))
      ensures hi == (U32(DIST_LO) > U32(HI_WM_LO)) && lo == (U32(DIST_LO) < U32(LO_WM_LO))
      ensures irq == (readEnable && ((breakpoint && bpInt) || (hi && hiInt) || (lo && loInt)))
    {
      hide U32;
      var distance, high, low := U32(DIST_LO), U32(HI_WM_LO), U32(LO_WM_LO);
      hi := distance > high;
      lo := distance < low;
      var bpRaised := breakpoint && bpInt;
      var overflow := hi && hiInt;
      var underflow := lo && loInt;
      irq := (bpRaised || overflow || underflow) && readEnable;
    }

    /** A FIFO half keeps the bits that exist, and the flags are brought up to
        date with the register it is part of. */
    method WriteFifo(off: nat, value: u16)
      requires Valid() && IsFifoRegister(off) && off % 2 == 0
      modifies reg, `hi, `lo, `irq
      ensures reg[..] == old(reg[..])[off / 2 := Kept(off, value)]
      ensures View() == Evaluate(View()) && Live(View())
      ensures Aligned(old(View())) ==> Aligned(View())
    {
      Store(off, value);
      UpdateInterrupts();
    }

    method Store(off: nat, value: u16)
      requires Valid() && IsFifoRegister(off) && off % 2 == 0
      modifies reg
      ensures reg[..] == old(reg[..])[off / 2 := Kept(off, value)]
      ensures Aligned(old(View())) ==> Aligned(View())
    {
      StoreHalf(off, value);
      hide U32;
    }

    method StoreHalf(off: nat, value: u16)
      requires Valid() && IsFifoRegister(off) && off % 2 == 0
      modifies reg
      ensures reg[..] == old(reg[..])[off / 2 := Kept(off, value)]
      ensures forall lo :: IsFifoRegister(lo) && lo % 4 == 0 && old(U32(lo)) % CHUNK == 0 ==> U32(lo) % CHUNK == 0
    {
      ghost var before := reg[..];
      reg[off / 2] := Kept(off, value);
      forall lo | IsFifoRegister(lo) && lo % 4 == 0 && old(U32(lo)) % CHUNK == 0
        ensures U32(lo) % CHUNK == 0
      {
        PairAligned(before[lo / 2 + 1], before[lo / 2]);
        PairAligned(reg[lo / 2 + 1], reg[lo / 2]);
      }
    }

    /** Registers below the FIFO block take no part in the FIFO. */
    method StoreOther(off: nat, value: u16)
      requires Valid() && off / 2 < REGS && off < FIFO_FIRST
      modifies reg
      ensures reg[..] == old(reg[..])[off / 2 := value]
      ensures View() == old(View())
    {
      reg[off / 2] := value;
    }

    method Decode(v: u16)
      requires Valid()
      modifies `readEnable, `bpEnable, `hiInt, `loInt, `link, `bpInt
      ensures View() == old(View()).(readEnable := Bit(v, 1), bpEnable := Bit(v, 2), hiInt := Bit(v, 4),
                                     loInt := Bit(v, 8), link := Bit(v, 16), bpInt := Bit(v, 32))
    {
      hide U32, Bit;
      readEnable, bpEnable, hiInt := Bit(v, 1), Bit(v, 2), Bit(v, 4);
      loInt, link, bpInt := Bit(v, 8), Bit(v, 16), Bit(v, 32);
    }

    /** The enables are the six bits kept of the value stored. */
    method WriteControl(value: u16)
      requires Valid()
      modifies reg, `readEnable, `bpEnable, `hiInt, `loInt, `link, `bpInt, `hi, `lo, `irq
      ensures reg[..] == old(reg[..])[CTRL / 2 := value % 64]
      ensures View() == Evaluate(old(View()).(readEnable := Bit(value, 1), bpEnable := Bit(value, 2), hiInt := Bit(value, 4),
                                              loInt := Bit(value, 8), link := Bit(value, 16), bpInt := Bit(value, 32)))
      ensures Live(View())
    {
      LowBits(value);
      hide U32, Bit, Evaluate;
      StoreOther(CTRL, value % 64);
      Decode(value % 64);
      UpdateInterrupts();
    }

    /** The guest stores one half register: after any store, to any offset, the
        flags agree with the registers if they did before, and aligned pointers
        stay aligned. */
    method Write16(off: nat, value: u16)
      requires Valid() && off / 2 < REGS && off % 2 == 0
      modifies this, reg
      ensures old(Live(View())) || IsFifoRegister(off) || off == CTRL ==> Live(View())
      ensures Aligned(old(View())) ==> Aligned(View())
      ensures !IsFifoRegister(off) && off != CTRL ==> View() == old(View())
      ensures IsFifoRegister(off) ==> reg[..] == old(reg[..])[off / 2 := Kept(off, value)]
    {
      hide U32, Bit;
      if IsFifoRegister(off) {
        WriteFifo(off, value);
      } else if off == CTRL {
        WriteControl(value);
      } else if off == PERF_SELECT {
        StoreOther(off, value % 8);
      } else if off == UNK_0A {
        StoreOther(off, value % 256);
      }
    }

    /** A burst has been written to guest RAM. */
    method GatherPipeBursted(piWptr: u32)
      requires Valid()
      modifies this, reg
      ensures View() == Burst(old(View()), piWptr)
      ensures hi == old(U32(DIST_LO) > U32(HI_WM_LO)) && lo == old(U32(DIST_LO) < U32(LO_WM_LO))
      ensures link ==> U32(WPTR_LO) == piWptr && U32(DIST_LO) == (old(U32(DIST_LO)) + 32) % WORD
      ensures !link ==> reg[..] == old(reg[..])
    {
      hide U32;
      UpdateInterrupts();
      if !link {
        return;
      }
      SetU32(WPTR_LO, piWptr);
      SetU32(DIST_LO, (U32(DIST_LO) + CHUNK) % WORD);
    }

    /** The graphics side takes the chunk at the read pointer. */
    method ConsumeChunk()
      requires Valid()
      modifies this, reg
      ensures View() == Consume(old(View())) && Live(View())
      ensures U32(RPTR_LO) == if old(U32(RPTR_LO) == U32(END_LO)) then old(U32(BASE_LO)) else (old(U32(RPTR_LO)) + 32) % WORD
      ensures U32(DIST_LO) == if old(U32(DIST_LO)) < 32 then 0 else old(U32(DIST_LO)) - 32
    {
      hide U32;
      var rptr, base, end := U32(RPTR_LO), U32(BASE_LO), U32(END_LO);
      if rptr == end {
        rptr := base;
      } else {
        rptr := (rptr + CHUNK) % WORD;
      }
      SetU32(RPTR_LO, rptr);
      var distance := U32(DIST_LO);
      if distance < CHUNK {
        distance := 0;
      } else {
        distance := distance - CHUNK;
      }
      SetU32(DIST_LO, distance);
      UpdateInterrupts();
    }

    method IsAtBreakpoint() returns (b: bool)
      requires Valid()
      ensures b == AtBreakpoint(View()) == (bpEnable && U32(RPTR_LO) == U32(BP_LO))
    {
      b := bpEnable && U32(RPTR_LO) == U32(BP_LO);
    }

    /** The status word is computed on read, never stored. */
    method Status() returns (word: u16)
      requires Valid()
      ensures word == StatusWord(View())
    {
      var distance, rptr, wptr := U32(DIST_LO), U32(RPTR_LO), U32(WPTR_LO);
      var stopped := bpEnable && rptr == U32(BP_LO);
      var readIdle := distance == 0 || rptr == wptr;
      var commandIdle := distance == 0 || stopped || !readEnable;
      word := 0;
      if hi { word := word + 1; }
      if lo { word := word + 2; }
      if readIdle { word := word + 4; }
      if commandIdle { word := word + 8; }
      if breakpoint { word := word + 16; }
    }
  }

  predicate ReadIdle(cp: Cp) {
    cp.dist == 0 || cp.rptr == cp.wptr
  }

  predicate CommandIdle(cp: Cp) {
    cp.dist == 0 || AtBreakpoint(cp) || !cp.readEnable
  }

  function StatusWord(cp: Cp): (w: u16)
    ensures Bit(w, 1) == cp.hi && Bit(w, 2) == cp.lo && Bit(w, 4) == (cp.dist == 0 || cp.rptr == cp.wptr)
    ensures Bit(w, 8) == (cp.dist == 0 || (cp.bpEnable && cp.rptr == cp.bp) || !cp.readEnable)
    ensures Bit(w, 16) == cp.breakpoint && w < 32
  {
    (if cp.hi then 1 else 0) + (if cp.lo then 2 else 0) + (if ReadIdle(cp) then 4 else 0)
    + (if CommandIdle(cp) then 8 else 0) + (if cp.breakpoint then 16 else 0)
  }
}
