/** What the decoder's register loads leave behind, location by location. */
module GxRegisters {
  import opened Arithmetic
  import opened BigEndian
  import opened Bytes
  import opened GxDecode

  function Bit(v: nat, i: nat): nat
    decreases i
  {
    if i == 0 then v % 2 else Bit(v / 2, i - 1)
  }

  /** A masked write takes each bit from the new value where the mask has a one,
      and keeps it where it has a zero. */
  lemma {:induction false} MaskedBit(prev: nat, next: nat, mask: nat, bits: nat, i: nat)
    requires i < bits
    ensures Bit(Merge(prev, next, mask, bits), i) == if Bit(mask, i) == 1 then Bit(next, i) else Bit(prev, i)
    decreases bits
  {
    var rest := Merge(prev / 2, next / 2, mask / 2, bits - 1);
    var low := (if mask % 2 == 1 then next else prev) % 2;
    assert Merge(prev, next, mask, bits) == low + 2 * rest;
    if i > 0 {
      MaskedBit(prev / 2, next / 2, mask / 2, bits - 1, i - 1);
    }
  }

  lemma {:induction false} MergeBound(prev: nat, next: nat, mask: nat, bits: nat)
    ensures Merge(prev, next, mask, bits) < Twice(bits)
  {
    if bits > 0 {
      MergeBound(prev / 2, next / 2, mask / 2, bits - 1);
    }
  }

  lemma WordOf24()
    ensures Twice(24) == 0x100_0000
  {
    assert Twice(6) == 64;
    assert Twice(12) == 0x1000;
    assert Twice(18) == 0x4_0000;
  }

  /** MASKED WRITES.  A BP load changes the register it names bit by bit as the
      mask allows and nothing else but the mask itself, which every load except
      one to the mask resets to all ones. */
  lemma BpLoad(g: Gx, reg: u8, raw: u32, i: nat)
    requires i < 24
    ensures var b := LoadBp(g, reg, raw).bp;
            && Bit(b[reg], i) == (if Bit(g.bp[BP_MASK], i) == 1 then Bit(raw, i) else Bit(g.bp[reg], i))
            && b[reg] < 0x100_0000
            && (reg != BP_MASK ==> b[BP_MASK] == 0xFF_FFFF)
            && (forall r: u8 :: r != reg && r != BP_MASK ==> b[r] == g.bp[r])
  {
    hide Merge, Bit, Twice;
    WordOf24();
    MergeBound(g.bp[reg], raw, g.bp[BP_MASK], 24);
    MaskedBit(g.bp[reg], raw, g.bp[BP_MASK], 24, i);
  }

  /** The low bits of a number are bits of it. */
  lemma {:induction false} LowBit(v: nat, n: nat, i: nat)
    requires i < n
    ensures Bit(v % Twice(n), i) == Bit(v, i)
    decreases n
  {
    var p := Twice(n - 1);
    var q := v / 2;
    assert q == p * (q / p) + q % p;
    assert 2 * (p * (q / p)) == (2 * p) * (q / p);
    DivModUnique(v, 2 * p, q / p, 2 * (q % p) + v % 2);
    if i > 0 {
      LowBit(q, n - 1, i - 1);
    }
  }

  /** WHAT A BP LOAD SAYS.  A load of 0x47 or 0x48 tells the pixel engine one
      token, with the interrupt for 0x48 alone, whose sixteen bits are the new
      ones where the mask has a one and the register's where it has a zero; a load
      of 0x45 tells it the finish exactly if it leaves a low byte of 2; any other
      load tells it nothing. */
  lemma BpSays(g: Gx, reg: u8, raw: u32)
    ensures var h := LoadBp(g, reg, raw);
            && (reg == 0x47 || reg == 0x48 ==>
                  && |h.pe| == |g.pe| + 1 && h.pe[..|g.pe|] == g.pe
                  && h.pe[|g.pe|].Token? && h.pe[|g.pe|].interrupt == (reg == 0x48)
                  && forall i: nat :: i < 16 ==>
                       Bit(h.pe[|g.pe|].value, i) == if Bit(g.bp[0xFE], i) == 1 then Bit(raw, i) else Bit(g.bp[reg], i))
            && (reg == 0x45 ==> h.pe == if h.bp[0x45] % 256 == 2 then g.pe + [Finish] else g.pe)
            && (reg != 0x45 && reg != 0x47 && reg != 0x48 ==> h.pe == g.pe)
  {
    var h := LoadBp(g, reg, raw);
    if reg == 0x47 || reg == 0x48 {
      forall i: nat | i < 16
        ensures Bit(h.pe[|g.pe|].value, i) == if Bit(g.bp[0xFE], i) == 1 then Bit(raw, i) else Bit(g.bp[reg], i)
      {
        hide Merge, Bit, Twice;
        BpLoad(g, reg, raw, i);
        SmallTwices();
        LowBit(h.bp[reg], 16, i);
      }
    }
  }

  /** WHAT A BP LOAD DOES.  A load of 0x52 copies the embedded frame buffer, one
      of 0x65 a palette: as many 32-byte lines as bits 10 to 20 of the register
      say, to texture memory at 512 times its low ten bits, from 32 times the low
      twenty bits of register 0x64, if that lies in memory. */
  lemma BpDoes(g: Gx, reg: u8, raw: u32)
    ensures var h := LoadBp(g, reg, raw);
            var place, lines, src := 512 * Bits(h.bp[reg], 0, 10), 32 * Bits(h.bp[reg], 10, 11), 32 * Bits(g.bp[0x64], 0, 20);
            && (reg == 0x52 ==> h.effects == g.effects + [EfbCopy])
            && (reg == 0x65 ==>
                  h.effects == if src + lines <= |g.mem| then g.effects + [LoadTlut(place, src, lines)] else g.effects)
            && (reg != 0x52 && reg != 0x65 ==> h.effects == g.effects)
            && h == g.(bp := h.bp, pe := h.pe, effects := h.effects)
  {
    SmallTwices();
    LargeTwices();
    Times32(g.bp[0x64]);
    hide Merge, Twice;
  }

  lemma Times32(v: nat)
    ensures v * 32 % 0x200_0000 == 32 * (v % 0x10_0000)
  {
    DivModUnique(v * 32, 0x200_0000, v / 0x10_0000, 32 * (v % 0x10_0000));
  }

  /** XF LOADS.  Words land at consecutive addresses; an address past the end is
      dropped, and no other word changes. */
  lemma {:induction false} XfLoad(xf: XfFile, addr: nat, words: seq<u32>, k: nat)
    requires k < XF_WORDS
    ensures StoreXf(xf, addr, words)[k] == if addr <= k < addr + |words| then words[k - addr] else xf[k]
    decreases |words|
  {
    if words != [] {
      var next := if addr < XF_WORDS then xf[addr := words[0]] else xf;
      XfLoad(next, addr + 1, words[1..], k);
    }
  }

  // ---- CP registers as numbered locations ---------------------------------

  /** Register numbers that hold anything: 0x30 to 0xBF. */
  predicate Stored(reg: u8) {
    0x30 <= reg < 0xC0
  }

  /** The number under which a register is known: the matrix indices and vertex
      descriptors answer to all sixteen of their numbers, each attribute table
      entry to two, each array base and stride to one. */
  function Home(reg: u8): u8 {
    if reg < 0x70 then reg - reg % 16
    else if reg < 0xA0 then reg - reg % 16 + reg % 8
    else reg
  }

  /** Values a register can hold: 29 bits of base, 8 of stride, else a word. */
  function Room(reg: u8): (n: nat)
    ensures n > 0
  {
    if 0xA0 <= reg < 0xB0 then 0x2000_0000 else if 0xB0 <= reg < 0xC0 then 0x100 else WORD
  }

  /** What register number `reg` holds, 0 if it holds nothing. */
  function Held(cp: CpRegs, reg: u8): u32 {
    match reg / 16
    case 3 => cp.matA
    case 4 => cp.matB
    case 5 => cp.vcdLo
    case 6 => cp.vcdHi
    case 7 => cp.vatA[reg % 8]
    case 8 => cp.vatB[reg % 8]
    case 9 => cp.vatC[reg % 8]
    case 10 => cp.bases[reg % 16]
    case 11 => cp.strides[reg % 16]
    case _ => 0
  }

  /** CP LOADS.  Read over write: after a load every number of the register
      loaded holds the value cut to its width, and every other register what it
      held; a number outside 0x30 to 0xBF changes nothing. */
  lemma CpLoad(cp: CpRegs, reg: u8, value: u32, r: u8)
    ensures Held(LoadCp(cp, reg, value), r)
            == if Stored(reg) && Home(r) == Home(reg) then value % Room(reg) else Held(cp, r)
  {
  }

  /** The numbers determine the registers: nothing else is state. */
  lemma HeldIsAll(a: CpRegs, b: CpRegs)
    requires forall r: u8 :: Held(a, r) == Held(b, r)
    ensures a == b
  {
    assert Held(a, 0x30) == Held(b, 0x30) && Held(a, 0x40) == Held(b, 0x40);
    assert Held(a, 0x50) == Held(b, 0x50) && Held(a, 0x60) == Held(b, 0x60);
    forall i: u8 | i < 8
      ensures a.vatA[i] == b.vatA[i] && a.vatB[i] == b.vatB[i] && a.vatC[i] == b.vatC[i]
    {
      assert Held(a, 0x70 + i) == Held(b, 0x70 + i);
      assert Held(a, 0x80 + i) == Held(b, 0x80 + i);
      assert Held(a, 0x90 + i) == Held(b, 0x90 + i);
    }
    forall i: u8 | i < 16
      ensures a.bases[i] == b.bases[i] && a.strides[i] == b.strides[i]
    {
      assert Held(a, 0xA0 + i) == Held(b, 0xA0 + i);
      assert Held(a, 0xB0 + i) == Held(b, 0xB0 + i);
    }
    SameFile8(a.vatA, b.vatA);
    SameFile8(a.vatB, b.vatB);
    SameFile8(a.vatC, b.vatC);
    SameFile16(a.bases, b.bases);
    SameFile16(a.strides, b.strides);
  }

  lemma SameFile8(x: File8, y: File8)
    requires forall i: u8 :: i < 8 ==> x[i] == y[i]
    ensures x == y
  {
    forall k | 0 <= k < |x|
      ensures x[k] == y[k]
    {
      var i: u8 := k;
      assert x[i] == y[i];
    }
  }

  lemma SameFile16(x: File16, y: File16)
    requires forall i: u8 :: i < 16 ==> x[i] == y[i]
    ensures x == y
  {
    forall k | 0 <= k < |x|
      ensures x[k] == y[k]
    {
      var i: u8 := k;
      assert x[i] == y[i];
    }
  }

  /** Loads of different registers commute; of two loads of one register the
      second wins. */
  lemma CpLoadsCommute(cp: CpRegs, reg: u8, value: u32, reg2: u8, value2: u32)
    ensures Home(reg) != Home(reg2) ==>
              LoadCp(LoadCp(cp, reg, value), reg2, value2) == LoadCp(LoadCp(cp, reg2, value2), reg, value)
    ensures Home(reg) == Home(reg2) ==>
              LoadCp(LoadCp(cp, reg, value), reg2, value2) == LoadCp(cp, reg2, value2)
  {
    var x, y := LoadCp(cp, reg, value), LoadCp(cp, reg2, value2);
    var a, b := LoadCp(x, reg2, value2), LoadCp(y, reg, value);
    HomeRange(reg, reg2);
    hide LoadCp, Held, Home, Room;
    forall r: u8
      ensures Held(a, r) == if Home(reg) != Home(reg2) then Held(b, r) else Held(y, r)
    {
      CpLoad(cp, reg, value, r);
      CpLoad(cp, reg2, value2, r);
      CpLoad(x, reg2, value2, r);
      CpLoad(y, reg, value, r);
    }
    if Home(reg) != Home(reg2) {
      HeldIsAll(a, b);
    } else {
      HeldIsAll(a, y);
    }
  }

  lemma HomeRange(reg: u8, reg2: u8)
    ensures Home(reg) == Home(reg2) ==> Stored(reg) == Stored(reg2) && Room(reg) == Room(reg2)
  {
  }
}
