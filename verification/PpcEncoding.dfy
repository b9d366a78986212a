/** Instruction encoders of the homebrew assembler and the field decoders that
    invert them (PowerPC Programming Environments Manual, chapter 8).  A field is
    named by the weight of its lowest bit and its number of values; fields of one
    word do not overlap, so combining them is adding them. */
module PpcEncoding {
  import opened Arithmetic
  import opened Bytes

  const BIT5 := 0x20
  const BIT10 := 0x400
  const OPCODE := 0x400_0000      // bits 0-5
  const FIELD_D := 0x20_0000      // bits 6-10
  const FIELD_A := 0x1_0000       // bits 11-15
  const FIELD_B := 0x800          // bits 16-20

  /** Negative values are masked to the width like any other. */
  function Place(value: int, weight: nat, size: nat): (r: nat)
    requires weight > 0 && size > 0
    ensures r <= (size - 1) * weight
  {
    Bounded(value % size, size - 1, weight);
    value % size * weight
  }

  lemma Bounded(a: nat, b: nat, w: nat)
    requires a <= b
    ensures a * w <= b * w
  {
  }

  /** What is above, at, and below a field. */
  lemma Extract(high: nat, value: int, low: nat, weight: nat, size: nat)
    requires weight > 0 && size > 0 && low < weight
    ensures Field((high * size + value % size) * weight + low, weight, size) == value % size
  {
    var v := value % size;
    var mid := high * size + v;
    assert mid * weight == weight * mid;
    DivModUnique(mid * weight + low, weight, mid, low);
    assert size * high == high * size;
    DivModUnique(mid, size, high, v);
  }

  // ---- forms --------------------------------------------------------------

  /** opcode | D | A | 16-bit immediate */
  function DForm(op: nat, d: int, a: int, imm: int): (w: nat)
    requires op < 64
    ensures w < WORD
  {
    op * OPCODE + Place(d, FIELD_D, BIT5) + Place(a, FIELD_A, BIT5) + Place(imm, 1, 0x1_0000)
  }

  lemma DFormInverse(op: nat, d: int, a: int, imm: int)
    requires op < 64
    ensures var w := DForm(op, d, a, imm);
            && Field(w, OPCODE, 64) == op && Field(w, FIELD_D, BIT5) == d % BIT5
            && Field(w, FIELD_A, BIT5) == a % BIT5 && Field(w, 1, 0x1_0000) == imm % 0x1_0000
  {
    hide Field;
    var x, y, z := d % BIT5, a % BIT5, imm % 0x1_0000;
    Extract(0, op, x * FIELD_D + y * FIELD_A + z, OPCODE, 64);
    Extract(op, d, y * FIELD_A + z, FIELD_D, BIT5);
    Extract(op * BIT5 + x, a, z, FIELD_A, BIT5);
    Extract((op * BIT5 + x) * BIT5 + y, imm, 0, 1, 0x1_0000);
  }

  /** opcode | 24-bit displacement | AA | LK */
  function IForm(li: int, lk: nat): (w: nat)
    requires lk < 2
    ensures w < WORD
  {
    18 * OPCODE + Place(li, 4, 0x100_0000) + lk
  }

  lemma IFormInverse(li: int, lk: nat)
    requires lk < 2
    ensures var w := IForm(li, lk);
            && Field(w, OPCODE, 64) == 18 && Field(w, 4, 0x100_0000) == li % 0x100_0000
            && Field(w, 2, 2) == 0 && Field(w, 1, 2) == lk
  {
    hide Field;
    var x := li % 0x100_0000;
    Extract(0, 18, x * 4 + lk, OPCODE, 64);
    Extract(18, li, lk, 4, 0x100_0000);
    Extract(18 * 0x100_0000 + x, 0, lk, 2, 2);
    Extract((18 * 0x100_0000 + x) * 2, lk, 0, 1, 2);
  }

  /** opcode | BO | BI | 14-bit displacement | AA | LK */
  function BForm(bo: int, bi: int, bd: int, lk: nat): (w: nat)
    requires lk < 2
    ensures w < WORD
  {
    16 * OPCODE + Place(bo, FIELD_D, BIT5) + Place(bi, FIELD_A, BIT5) + Place(bd, 4, 0x4000) + lk
  }

  lemma BFormInverse(bo: int, bi: int, bd: int, lk: nat)
    requires lk < 2
    ensures var w := BForm(bo, bi, bd, lk);
            && Field(w, OPCODE, 64) == 16 && Field(w, FIELD_D, BIT5) == bo % BIT5
            && Field(w, FIELD_A, BIT5) == bi % BIT5 && Field(w, 4, 0x4000) == bd % 0x4000
            && Field(w, 2, 2) == 0 && Field(w, 1, 2) == lk
  {
    hide Field;
    var x, y, z := bo % BIT5, bi % BIT5, bd % 0x4000;
    Extract(0, 16, x * FIELD_D + y * FIELD_A + z * 4 + lk, OPCODE, 64);
    Extract(16, bo, y * FIELD_A + z * 4 + lk, FIELD_D, BIT5);
    Extract(16 * BIT5 + x, bi, z * 4 + lk, FIELD_A, BIT5);
    Extract((16 * BIT5 + x) * BIT5 + y, bd, lk, 4, 0x4000);
    Extract(((16 * BIT5 + x) * BIT5 + y) * 0x4000 + z, 0, lk, 2, 2);
    Extract((((16 * BIT5 + x) * BIT5 + y) * 0x4000 + z) * 2, lk, 0, 1, 2);
  }

  /** opcode 31 | D | low SPR half | high SPR half | subopcode | 0 */
  function XfxForm(d: int, spr: nat, sub: nat): (w: nat)
    requires sub < BIT10
    ensures w < WORD
  {
    31 * OPCODE + Place(d, FIELD_D, BIT5) + Place(spr % BIT5, FIELD_A, BIT5)
    + Place(spr / BIT5 % BIT5, FIELD_B, BIT5) + sub * 2
  }

  /** The SPR number is split in halves that are swapped in the word. */
  function SprOf(w: nat): nat {
    Field(w, FIELD_A, BIT5) + BIT5 * Field(w, FIELD_B, BIT5)
  }

  lemma XfxHalves(x: nat, y: nat, z: nat, sub: nat)
    requires x < BIT5 && y < BIT5 && z < BIT5 && sub < BIT10
    ensures var w := 31 * OPCODE + x * FIELD_D + y * FIELD_A + z * FIELD_B + sub * 2;
            Field(w, FIELD_A, BIT5) == y && Field(w, FIELD_B, BIT5) == z
  {
    hide Field;
    Extract(31 * BIT5 + x, y, z * FIELD_B + sub * 2, FIELD_A, BIT5);
    Extract((31 * BIT5 + x) * BIT5 + y, z, sub * 2, FIELD_B, BIT5);
  }

  lemma XfxFront(x: nat, y: nat, z: nat, sub: nat)
    requires x < BIT5 && y < BIT5 && z < BIT5 && sub < BIT10
    ensures var w := 31 * OPCODE + x * FIELD_D + y * FIELD_A + z * FIELD_B + sub * 2;
            Field(w, OPCODE, 64) == 31 && Field(w, FIELD_D, BIT5) == x
  {
    hide Field;
    Extract(0, 31, x * FIELD_D + y * FIELD_A + z * FIELD_B + sub * 2, OPCODE, 64);
    Extract(31, x, y * FIELD_A + z * FIELD_B + sub * 2, FIELD_D, BIT5);
  }

  lemma XfxBack(x: nat, y: nat, z: nat, sub: nat)
    requires x < BIT5 && y < BIT5 && z < BIT5 && sub < BIT10
    ensures var w := 31 * OPCODE + x * FIELD_D + y * FIELD_A + z * FIELD_B + sub * 2;
            Field(w, 2, BIT10) == sub && Field(w, 1, 2) == 0
  {
    hide Field;
    Extract(((31 * BIT5 + x) * BIT5 + y) * BIT5 + z, sub, 0, 2, BIT10);
    Extract((((31 * BIT5 + x) * BIT5 + y) * BIT5 + z) * BIT10 + sub, 0, 0, 1, 2);
  }

  lemma XfxFormInverse(d: int, spr: nat, sub: nat)
    requires sub < BIT10 && spr < BIT10
    ensures var w := XfxForm(d, spr, sub);
            && Field(w, OPCODE, 64) == 31 && Field(w, FIELD_D, BIT5) == d % BIT5
            && SprOf(w) == spr && Field(w, 2, BIT10) == sub && Field(w, 1, 2) == 0
  {
    hide Field;
    XfxHalves(d % BIT5, spr % BIT5, spr / BIT5 % BIT5, sub);
    XfxFront(d % BIT5, spr % BIT5, spr / BIT5 % BIT5, sub);
    XfxBack(d % BIT5, spr % BIT5, spr / BIT5 % BIT5, sub);
  }

  /** opcode 19 | BO | BI | 0 | subopcode | 0 */
  function XlForm(bo: int, bi: int, sub: nat): (w: nat)
    requires sub < BIT10
    ensures w < WORD
  {
    19 * OPCODE + Place(bo, FIELD_D, BIT5) + Place(bi, FIELD_A, BIT5) + sub * 2
  }

  lemma XlFormInverse(bo: int, bi: int, sub: nat)
    requires sub < BIT10
    ensures var w := XlForm(bo, bi, sub);
            && Field(w, OPCODE, 64) == 19 && Field(w, FIELD_D, BIT5) == bo % BIT5
            && Field(w, FIELD_A, BIT5) == bi % BIT5 && Field(w, FIELD_B, BIT5) == 0
            && Field(w, 2, BIT10) == sub && Field(w, 1, 2) == 0
  {
    hide Field;
    var x, y := bo % BIT5, bi % BIT5;
    Extract(0, 19, x * FIELD_D + y * FIELD_A + sub * 2, OPCODE, 64);
    Extract(19, bo, y * FIELD_A + sub * 2, FIELD_D, BIT5);
    Extract(19 * BIT5 + x, bi, sub * 2, FIELD_A, BIT5);
    Extract((19 * BIT5 + x) * BIT5 + y, 0, sub * 2, FIELD_B, BIT5);
    Extract(((19 * BIT5 + x) * BIT5 + y) * BIT5, sub, 0, 2, BIT10);
    Extract((((19 * BIT5 + x) * BIT5 + y) * BIT5) * BIT10 + sub, 0, 0, 1, 2);
  }

  /** Branch always to the link register. */
  function EncBlr(): (w: nat)
    ensures w == 0x4E80_0020
  {
    XlForm(20, 0, 16)
  }

  /** opcode 11 | field | 0 | 0 | A | 16-bit immediate */
  function CmpForm(crf: int, a: int, imm: int): (w: nat)
    ensures w < WORD
  {
    11 * OPCODE + Place(crf, 0x80_0000, 8) + Place(a, FIELD_A, BIT5) + Place(imm, 1, 0x1_0000)
  }

  lemma CmpFormInverse(crf: int, a: int, imm: int)
    ensures var w := CmpForm(crf, a, imm);
            && Field(w, OPCODE, 64) == 11 && Field(w, 0x80_0000, 8) == crf % 8 && Field(w, 0x20_0000, 4) == 0
            && Field(w, FIELD_A, BIT5) == a % BIT5 && Field(w, 1, 0x1_0000) == imm % 0x1_0000
  {
    hide Field;
    var x, y, z := crf % 8, a % BIT5, imm % 0x1_0000;
    Extract(0, 11, x * 0x80_0000 + y * FIELD_A + z, OPCODE, 64);
    Extract(11, crf, y * FIELD_A + z, 0x80_0000, 8);
    Extract(11 * 8 + x, 0, y * FIELD_A + z, 0x20_0000, 4);
    Extract((11 * 8 + x) * 4, a, z, FIELD_A, BIT5);
    Extract(((11 * 8 + x) * 4) * BIT5 + y, imm, 0, 1, 0x1_0000);
  }

  // ---- branches and constants ---------------------------------------------

  /** Two's complement of a field of `size` values. */
  function Signed(v: nat, size: nat): int {
    if v < size / 2 then v else v - size
  }

  /** A value survives the field exactly when it fits as a signed one. */
  lemma SignedExactly(v: int, size: nat)
    requires size > 0 && size % 2 == 0
    ensures Signed(v % size, size) == v <==> -(size / 2) <= v < size / 2
  {
    if -(size / 2) <= v < 0 {
      DivModUnique(v, size, -1, v + size);
    } else if 0 <= v < size / 2 {
      DivModUnique(v, size, 0, v);
    }
  }

  /** Python's shift of the displacement, a floor division. */
  function EncB(target: int, addr: int, lk: nat): (w: nat)
    requires lk < 2
    ensures w < WORD
  {
    IForm((target - addr) / 4, lk)
  }

  function EncBc(bo: int, bi: int, target: int, addr: int, lk: nat): (w: nat)
    requires lk < 2
    ensures w < WORD
  {
    BForm(bo, bi, (target - addr) / 4, lk)
  }

  /** Where a relative branch at `addr` goes. */
  function BranchTarget(w: nat, addr: int): int {
    if Field(w, OPCODE, 64) == 18 then addr + 4 * Signed(Field(w, 4, 0x100_0000), 0x100_0000)
    else addr + 4 * Signed(Field(w, 4, 0x4000), 0x4000)
  }

  /** A branch reaches its target exactly when the displacement fits its field. */
  lemma BranchReaches(target: int, addr: int, lk: nat)
    requires lk < 2 && (target - addr) % 4 == 0
    ensures BranchTarget(EncB(target, addr, lk), addr) == target <==> -0x200_0000 <= target - addr < 0x200_0000
  {
    IFormInverse((target - addr) / 4, lk);
    SignedExactly((target - addr) / 4, 0x100_0000);
  }

  lemma CondBranchReaches(bo: int, bi: int, target: int, addr: int, lk: nat)
    requires lk < 2 && (target - addr) % 4 == 0
    ensures BranchTarget(EncBc(bo, bi, target, addr, lk), addr) == target <==> -0x8000 <= target - addr < 0x8000
  {
    BFormInverse(bo, bi, (target - addr) / 4, lk);
    SignedExactly((target - addr) / 4, 0x4000);
  }

  function EncLis(rd: int, imm: int): (w: nat)
    ensures w < WORD
  {
    DForm(15, rd, 0, imm)
  }

  function EncOri(ra: int, rs: int, imm: int): (w: nat)
    ensures w < WORD
  {
    DForm(24, rs, ra, imm)
  }

  /** What `lis` then `ori` leave in the register both name. */
  function Loaded(lis: nat, ori: nat): nat {
    Field(lis, 1, 0x1_0000) * 0x1_0000 + Field(ori, 1, 0x1_0000)
  }

  lemma PairLoads(rd: int, a: int)
    ensures var lis, ori := EncLis(rd, a / 0x1_0000 % 0x1_0000), EncOri(rd, rd, a % 0x1_0000);
            && Loaded(lis, ori) == a % WORD
            && Field(lis, OPCODE, 64) == 15 && Field(lis, FIELD_A, BIT5) == 0 && Field(lis, FIELD_D, BIT5) == rd % BIT5
            && Field(ori, OPCODE, 64) == 24 && Field(ori, FIELD_A, BIT5) == rd % BIT5 && Field(ori, FIELD_D, BIT5) == rd % BIT5
  {
    var hi, lo := a / 0x1_0000, a % 0x1_0000;
    DFormInverse(15, rd, 0, hi % 0x1_0000);
    DFormInverse(24, rd, rd, lo);
    assert a == WORD * (hi / 0x1_0000) + (hi % 0x1_0000 * 0x1_0000 + lo);
    DivModUnique(a, WORD, hi / 0x1_0000, hi % 0x1_0000 * 0x1_0000 + lo);
  }
}
