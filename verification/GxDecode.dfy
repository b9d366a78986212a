/** The GX command decoder (`gx_run`, `gx_run_command` and the register loads
    they perform).

    The decoder is handed whatever bytes are staged, executes whole commands
    from the front and stops at the first partial one.  How many bytes a draw
    takes depends on the vertex descriptor and attribute tables that earlier
    commands loaded, so sizes cannot be read off the bytes alone. */
module GxDecode {
  import opened Bytes

  type File8 = s: seq<u32> | |s| == 8 witness seq(8, _ => 0)
  type File16 = s: seq<u32> | |s| == 16 witness seq(16, _ => 0)
  type File256 = s: seq<u32> | |s| == 256 witness seq(256, _ => 0)
  type XfFile = s: seq<u32> | |s| == XF_WORDS witness seq(XF_WORDS, _ => 0)

  const XF_WORDS := 0x1058

  /** The CP registers that size and locate vertices (GxCpState). */
  datatype CpRegs = CpRegs(
    vcdLo: u32, vcdHi: u32,
    vatA: File8, vatB: File8, vatC: File8,
    bases: File16, strides: File16,
    matA: u32, matB: u32)

  /** What the pixel engine is told, in order. */
  datatype PeEvent = Finish | Token(value: u16, interrupt: bool)

  /** Work handed to the renderer or to texture memory, in order. */
  datatype Effect =
    | Draw(prim: nat, vat: nat, vsize: nat, payload: seq<u8>)
    | EfbCopy
    | LoadTlut(tmem: nat, src: nat, count: nat)

  /** The decoder.  `mem` is the guest memory that display lists, indexed XF
      loads and palettes are read from; it is fixed.  `depth` is positive
      inside a display list.  `log` lists the top-level commands executed so
      far, a run of NOP bytes counting as one command a byte. */
  datatype Gx = Gx(
    mem: seq<u8>, depth: nat,
    cp: CpRegs, bp: File256, xf: XfFile,
    pe: seq<PeEvent>, effects: seq<Effect>,
    log: seq<seq<u8>>)

  function NoRegs(): CpRegs {
    CpRegs(0, 0, seq(8, _ => 0), seq(8, _ => 0), seq(8, _ => 0), seq(16, _ => 0), seq(16, _ => 0), 0, 0)
  }

  /** The decoder after a hardware reset: every register zero, but all bits of
      BP registers writable. */
  function PowerOn(mem: seq<u8>): Gx {
    var bp: seq<u32> := seq(256, _ => 0);
    Gx(mem, 0, NoRegs(), bp[BP_MASK := 0xFF_FFFF], seq(XF_WORDS, _ => 0), [], [], [])
  }

  const OP_NOP := 0x00
  const OP_LOAD_CP := 0x08
  const OP_LOAD_XF := 0x10
  const OP_INDX_A := 0x20
  const OP_INDX_B := 0x28
  const OP_INDX_C := 0x30
  const OP_INDX_D := 0x38
  const OP_CALL_DL := 0x40
  const OP_METRICS := 0x44
  const OP_INVL_VC := 0x48
  const OP_LOAD_BP := 0x61

  const BP_DRAW_DONE := 0x45
  const BP_TOKEN := 0x47
  const BP_TOKEN_INT := 0x48
  const BP_EFB_COPY := 0x52
  const BP_TLUT0 := 0x64
  const BP_TLUT1 := 0x65
  const BP_MASK := 0xFE

  predicate IsPrim(op: u8) { 0x80 <= op <= 0xBF }

  predicate IsIndexed(op: u8) {
    op == OP_INDX_A || op == OP_INDX_B || op == OP_INDX_C || op == OP_INDX_D
  }

  // ---- vertex sizes -------------------------------------------------------

  function ElemSize(fmt: nat): nat {
    if fmt <= 1 then 1 else if fmt <= 3 then 2 else 4
  }

  /** Component types: 0 absent, 1 direct, 2 index8, 3 index16. */
  function PosSize(kind: nat, fmt: nat, elements: nat): nat {
    if kind == 0 then 0 else if kind == 2 then 1 else if kind == 3 then 2
    else (if elements != 0 then 3 else 2) * ElemSize(fmt)
  }

  function NormSize(kind: nat, fmt: nat, elements: nat, index3: nat): nat {
    if kind == 0 then 0
    else if kind == 1 then (if elements != 0 then 9 else 3) * ElemSize(fmt)
    else if kind == 2 then (if elements != 0 && index3 != 0 then 3 else 1)
    else (if elements != 0 && index3 != 0 then 6 else 2)
  }

  function ColorSize(kind: nat, fmt: nat): nat {
    if kind == 0 then 0 else if kind == 2 then 1 else if kind == 3 then 2
    else if fmt <= 5 then [2, 3, 4, 2, 3, 4][fmt] else 0
  }

  function TexSize(kind: nat, fmt: nat, elements: nat): nat {
    if kind == 0 then 0 else if kind == 2 then 1 else if kind == 3 then 2
    else (if elements != 0 then 2 else 1) * ElemSize(fmt)
  }

  /** Register holding texture coordinate `i`'s VAT fields, and the weight of
      its elements bit there; its three format bits follow. */
  function TexField(cp: CpRegs, vat: nat, i: nat): (r: (u32, nat))
    requires vat < 8
    ensures r.1 > 0
  {
    match i
    case 0 => (cp.vatA[vat], 0x20_0000)
    case 1 => (cp.vatB[vat], 0x1)
    case 2 => (cp.vatB[vat], 0x200)
    case 3 => (cp.vatB[vat], 0x4_0000)
    case 4 => (cp.vatB[vat], 0x800_0000)
    case 5 => (cp.vatC[vat], 0x20)
    case 6 => (cp.vatC[vat], 0x4000)
    case _ => (cp.vatC[vat], 0x80_0000)
  }

  function OneTexSize(cp: CpRegs, vat: nat, i: nat): nat
    requires vat < 8
  {
    var (group, weight) := TexField(cp, vat, i);
    TexSize(Field(cp.vcdHi, Pow4(i), 4), Field(group, 2 * weight, 8), Field(group, weight, 2))
  }

  function TexSizes(cp: CpRegs, vat: nat, count: nat): nat
    requires vat < 8
  {
    if count == 0 then 0 else TexSizes(cp, vat, count - 1) + OneTexSize(cp, vat, count - 1)
  }

  function Pow4(i: nat): (p: nat)
    ensures p > 0
  {
    if i == 0 then 1 else 4 * Pow4(i - 1)
  }

  function PopCount(v: nat, bits: nat): nat {
    if bits == 0 then 0 else v % 2 + PopCount(v / 2, bits - 1)
  }

  function VertexSize(cp: CpRegs, vat: nat): nat
    requires vat < 8
  {
    var lo, a := cp.vcdLo, cp.vatA[vat];
    PopCount(lo, 9)
    + PosSize(Field(lo, 0x200, 4), Field(a, 0x2, 8), Field(a, 0x1, 2))
    + NormSize(Field(lo, 0x800, 4), Field(a, 0x400, 8), Field(a, 0x200, 2), Field(a, 0x80000000, 2))
    + ColorSize(Field(lo, 0x2000, 4), Field(a, 0x4000, 8))
    + ColorSize(Field(lo, 0x8000, 4), Field(a, 0x40000, 8))
    + TexSizes(cp, vat, 8)
  }

  // ---- command sizes ------------------------------------------------------

  function NopRun(d: seq<u8>): (n: nat)
    ensures n <= |d|
    ensures forall i :: 0 <= i < n ==> d[i] == OP_NOP
    ensures n < |d| ==> d[n] != OP_NOP
  {
    if |d| == 0 || d[0] != OP_NOP then 0 else 1 + NopRun(d[1..])
  }

  function XfLength(d: seq<u8>): nat
    requires |d| >= 5
  {
    5 + 4 * (Be32(d[1..]) / 0x1_0000 % 16 + 1)
  }

  /** Bytes a command of opcode `op` has at least. */
  function HeaderLength(op: u8): nat {
    if op == OP_LOAD_CP then 6
    else if op == OP_LOAD_XF || IsIndexed(op) || op == OP_LOAD_BP then 5
    else if op == OP_CALL_DL then 9
    else if IsPrim(op) then 3
    else 1
  }

  function DrawBytes(vertices: nat, vsize: nat): nat {
    vertices * vsize
  }

  function PrimLength(cp: CpRegs, d: seq<u8>): nat
    requires |d| >= 3
  {
    3 + DrawBytes(Be16(d[1..]), VertexSize(cp, d[0] % 8))
  }

  /** A draw with vertices of computed size 0: the decoder refuses to guess. */
  predicate Unsizable(cp: CpRegs, d: seq<u8>)
    requires |d| >= 3
  {
    Be16(d[1..]) > 0 && VertexSize(cp, d[0] % 8) == 0
  }

  /** Size of the command at the front of `d`, 0 if it is not whole. */
  function CommandSize(cp: CpRegs, d: seq<u8>): (n: nat)
    ensures n <= |d|
    ensures n > 0 ==> HeaderLength(d[0]) <= n
    ensures |d| > 0 && d[0] == OP_NOP ==> n == NopRun(d) > 0
  {
    if |d| == 0 then 0
    else if d[0] == OP_NOP then NopRun(d)
    else if |d| < HeaderLength(d[0]) then 0
    else if d[0] == OP_LOAD_XF then
      (if |d| < XfLength(d) then 0 else XfLength(d))
    else if IsPrim(d[0]) then
      if Unsizable(cp, d) || |d| < PrimLength(cp, d) then 0 else PrimLength(cp, d)
    else HeaderLength(d[0])
  }

  // ---- command execution --------------------------------------------------

  function LoadCp(cp: CpRegs, reg: u8, value: u32): CpRegs {
    match reg / 16
    case 3 => cp.(matA := value)
    case 4 => cp.(matB := value)
    case 5 => cp.(vcdLo := value)
    case 6 => cp.(vcdHi := value)
    case 7 => cp.(vatA := cp.vatA[reg % 8 := value])
    case 8 => cp.(vatB := cp.vatB[reg % 8 := value])
    case 9 => cp.(vatC := cp.vatC[reg % 8 := value])
    case 10 => cp.(bases := cp.bases[reg % 16 := value % 0x2000_0000])
    case 11 => cp.(strides := cp.strides[reg % 16 := value % 256])
    case _ => cp
  }

  /** Words past the end of XF memory are ignored. */
  function StoreXf(xf: XfFile, addr: nat, words: seq<u32>): XfFile
    decreases |words|
  {
    if words == [] then xf
    else StoreXf(if addr < XF_WORDS then xf[addr := words[0]] else xf, addr + 1, words[1..])
  }

  function LoadIndexed(g: Gx, op: u8, value: u32): XfFile {
    var count := value / 0x1000 % 16 + 1;
    var slot := op / 8 + 8;
    if slot >= 16 then g.xf
    else
      var src := g.cp.bases[slot] % 0x2000_0000 + value / 0x1_0000 * g.cp.strides[slot];
      if src + 4 * count > |g.mem| then g.xf
      else StoreXf(g.xf, value % 0x1000, BeWords(g.mem[src..src + 4 * count]))
  }

  /** Bits of `next` where `mask` is 1, of `prev` where it is 0. */
  function Merge(prev: nat, next: nat, mask: nat, bits: nat): nat {
    if bits == 0 then 0
    else (if mask % 2 == 1 then next else prev) % 2
         + 2 * Merge(prev / 2, next / 2, mask / 2, bits - 1)
  }

  /** The write mask in BP register 0xFE applies to the next BP write only. */
  function LoadBp(g: Gx, reg: u8, raw: u32): Gx {
    var value: u32 := Merge(g.bp[reg], raw, g.bp[BP_MASK], 24) % 0x100_0000;
    var bp: File256 := if reg != BP_MASK then g.bp[BP_MASK := 0xFF_FFFF] else g.bp;
    var g' := g.(bp := bp[reg := value]);
    if reg == BP_DRAW_DONE then
      (if value % 256 == 2 then g'.(pe := g.pe + [Finish]) else g')
    else if reg == BP_TOKEN then g'.(pe := g.pe + [Token(value % 0x1_0000, false)])
    else if reg == BP_TOKEN_INT then g'.(pe := g.pe + [Token(value % 0x1_0000, true)])
    else if reg == BP_EFB_COPY then g'.(effects := g.effects + [EfbCopy])
    else if reg == BP_TLUT1 then
      var count := value / 0x400 % 0x800 * 32;
      var src := (g'.bp[BP_TLUT0] as int) * 32 % 0x200_0000;
      if src + count <= |g.mem| then
        g'.(effects := g.effects + [LoadTlut(value % 0x400 * 0x200, src, count)])
      else g'
    else g'
  }

  /** The entries a whole command adds to the log. */
  function Entries(cmd: seq<u8>): seq<seq<u8>>
    requires |cmd| > 0
  {
    if cmd[0] == OP_NOP then seq(|cmd|, _ => [OP_NOP]) else [cmd]
  }

  /** Execute one whole command. */
  function Apply(g: Gx, cmd: seq<u8>): (r: Gx)
    requires |cmd| > 0 && |cmd| >= HeaderLength(cmd[0])
    ensures r.depth == g.depth && r.mem == g.mem
    ensures r.log == if g.depth == 0 then g.log + Entries(cmd) else g.log
    decreases if g.depth == 0 then 1 else 0, |cmd|, 0
  {
    var h := if g.depth == 0 then g.(log := g.log + Entries(cmd)) else g;
    var op := cmd[0];
    if op == OP_LOAD_CP then h.(cp := LoadCp(g.cp, cmd[1], Be32(cmd[2..])))
    else if op == OP_LOAD_XF then
      h.(xf := StoreXf(g.xf, Be32(cmd[1..]) % 0x1_0000, BeWords(cmd[5..])))
    else if IsIndexed(op) then h.(xf := LoadIndexed(g, op, Be32(cmd[1..])))
    else if op == OP_CALL_DL then CallList(h, Be32(cmd[1..]), Be32(cmd[5..]))
    else if op == OP_LOAD_BP then LoadBp(h, cmd[1], Be24(cmd[2..]))
    else if IsPrim(op) then
      h.(effects := g.effects + [Draw(op / 8 % 8, op % 8, VertexSize(g.cp, op % 8), cmd[3..])])
    else h
  }

  /** Run a display list in place.  A list inside a list is skipped, as is one
      that is empty or does not lie in memory. */
  function CallList(g: Gx, addr: u32, length: u32): (r: Gx)
    ensures r.depth == g.depth && r.mem == g.mem && r.log == g.log
    decreases if g.depth == 0 then 1 else 0, 0, 0
  {
    var start := (addr - addr % 32) % 0x2000_0000;
    var size := length - length % 32;
    if g.depth == 0 && 0 < size && start + size <= |g.mem| then
      Run(g.(depth := 1), g.mem[start..start + size]).g.(depth := 0)
    else g
  }

  /** Result of a run: the decoder afterwards and how many bytes it took. */
  datatype Ran = Ran(g: Gx, used: nat)

  /** Execute whole commands from the front of `d`. */
  function Run(g: Gx, d: seq<u8>): (r: Ran)
    ensures r.used <= |d|
    ensures r.g.depth == g.depth && r.g.mem == g.mem
    ensures g.depth > 0 ==> r.g.log == g.log
    decreases if g.depth == 0 then 1 else 0, |d|, 1
  {
    var n := CommandSize(g.cp, d);
    if n == 0 then Ran(g, 0)
    else
      var rest := Run(Apply(g, d[..n]), d[n..]);
      Ran(rest.g, n + rest.used)
  }

  function Leftover(g: Gx, d: seq<u8>): (r: seq<u8>) {
    d[Run(g, d).used..]
  }
}
