/** The command stream as the guest writes it: commands spelled out byte by byte
    are taken back one by one, whole, and do what their fields say. */
module GxEncoding {
  import opened Arithmetic
  import opened BigEndian
  import opened Bytes
  import opened GxDecode
  import opened GxRegisters
  import opened GxStream

  datatype Command =
    | Nop
    | LoadCpReg(reg: u8, value: u32)
    | LoadXfWords(addr: nat, words: seq<u32>)
    | LoadXfIndexed(slot: nat, index: nat, count: nat, addr: nat)
    | CallList(address: u32, length: u32)
    | Primitive(prim: nat, vat: nat, vertices: nat, payload: seq<u8>)
    | LoadBpReg(reg: u8, value: u32)
    | Single(op: u8)

  /** Opcodes that take no operand: those of the hardware and any unassigned one. */
  predicate StandsAlone(op: u8) {
    && op != 0x00 && op != 0x08 && op != 0x10 && op != 0x20 && op != 0x28 && op != 0x30 && op != 0x38
    && op != 0x40 && op != 0x61 && !(0x80 <= op <= 0xBF)
  }

  /** The fields fit their places. */
  predicate Proper(c: Command) {
    match c
    case LoadXfWords(addr, words) => addr < 0x1_0000 && 1 <= |words| <= 16
    case LoadXfIndexed(slot, index, count, addr) => slot < 4 && index < 0x1_0000 && 1 <= count <= 16 && addr < 0x1000
    case Primitive(prim, vat, vertices, _) => prim < 8 && vat < 8 && vertices < 0x1_0000
    case LoadBpReg(_, value) => value < 0x100_0000
    case Single(op) => StandsAlone(op)
    case _ => true
  }

  function SpelledWords(words: seq<u32>): seq<u8> {
    if words == [] then [] else Spelled(words[0], 4) + SpelledWords(words[1..])
  }

  function Encode(c: Command): (d: seq<u8>)
    requires Proper(c)
    ensures |d| > 0
  {
    match c
    case Nop => [0x00]
    case LoadCpReg(reg, value) => [0x08, reg] + Spelled(value, 4)
    case LoadXfWords(addr, words) => [0x10] + Spelled((|words| - 1) * 0x1_0000 + addr, 4) + SpelledWords(words)
    case LoadXfIndexed(slot, index, count, addr) =>
      [0x20 + 8 * slot] + Spelled(index * 0x1_0000 + (count - 1) * 0x1000 + addr, 4)
    case CallList(address, length) => [0x40] + Spelled(address, 4) + Spelled(length, 4)
    case Primitive(prim, vat, vertices, payload) => [0x80 + 8 * prim + vat] + Spelled(vertices, 2) + payload
    case LoadBpReg(reg, value) => [0x61, reg] + Spelled(value, 3)
    case Single(op) => [op]
  }

  /** A draw carries its vertices as the live formats size them. */
  predicate Sized(cp: CpRegs, c: Command)
    requires Proper(c)
  {
    c.Primitive? ==>
      && |c.payload| == DrawBytes(c.vertices, VertexSize(cp, c.vat))
      && (c.vertices > 0 ==> VertexSize(cp, c.vat) > 0)
  }

  // ---- what a command does ------------------------------------------------

  /** The big-endian word at a place in memory. */
  function WordAt(mem: seq<u8>, at: nat): nat
    requires at + 4 <= |mem|
  {
    Number(mem[at..at + 4])
  }

  lemma WordFits(mem: seq<u8>, at: nat)
    requires at + 4 <= |mem|
    ensures WordAt(mem, at) < WORD && WordAt(mem, at) == Be32(mem[at..])
  {
    ReadersAre(mem[at..]);
    assert mem[at..][..4] == mem[at..at + 4];
  }

  /** `count` words of memory. */
  function WordsFrom(mem: seq<u8>, at: nat, count: nat): (ws: seq<u32>)
    requires at + 4 * count <= |mem|
    ensures |ws| == count
    decreases count
  {
    if count == 0 then []
    else
      WordFits(mem, at);
      [WordAt(mem, at)] + WordsFrom(mem, at + 4, count - 1)
  }

  /** Top-level commands are noted. */
  function Marked(g: Gx, cmd: seq<u8>): Gx {
    if g.depth == 0 then g.(log := g.log + [cmd]) else g
  }

  function Element(base: nat, index: nat, stride: nat): nat {
    base + index * stride
  }

  /** Where an indexed load finds its words: slots 12 to 15 of the array bases
      and strides. */
  function Source(g: Gx, slot: nat, index: nat): nat
    requires slot < 4
  {
    Element(g.cp.bases[12 + slot] % 0x2000_0000, index, g.cp.strides[12 + slot])
  }

  /** A list is called by 32-byte blocks, 29 bits of address being enough. */
  function BlockStart(address: u32): nat {
    32 * (address / 32 % 0x100_0000)
  }

  function BlockSize(length: u32): nat {
    32 * (length / 32)
  }

  function Perform(g: Gx, c: Command): Gx
    requires Proper(c)
  {
    var h := Marked(g, Encode(c));
    match c
    case Nop => h
    case LoadCpReg(reg, value) => h.(cp := LoadCp(g.cp, reg, value))
    case LoadXfWords(addr, words) => h.(xf := StoreXf(g.xf, addr, words))
    case LoadXfIndexed(slot, index, count, addr) =>
      var src := Source(g, slot, index);
      if src + 4 * count <= |g.mem| then h.(xf := StoreXf(g.xf, addr, WordsFrom(g.mem, src, count))) else h
    case CallList(address, length) =>
      var start, size := BlockStart(address), BlockSize(length);
      if g.depth == 0 && size > 0 && start + size <= |g.mem|
      then Run(h.(depth := 1), g.mem[start..start + size]).g.(depth := 0) else h
    case Primitive(prim, vat, _, payload) =>
      h.(effects := g.effects + [Draw(prim, vat, VertexSize(g.cp, vat), payload)])
    case LoadBpReg(reg, value) => LoadBp(h, reg, value)
    case Single(_) => h
  }

  // ---- one command --------------------------------------------------------

  lemma {:induction false} WordsBack(words: seq<u32>)
    ensures |SpelledWords(words)| == 4 * |words| && BeWords(SpelledWords(words)) == words
  {
    if words != [] {
      WordsBack(words[1..]);
      var d := SpelledWords(words);
      ReadBack(words[0], 4, SpelledWords(words[1..]));
      assert d[4..] == SpelledWords(words[1..]);
      hide Spelled, Be32;
      assert Be32(d) == words[0];
    }
  }

  lemma {:induction false} WordsAre(mem: seq<u8>, at: nat, count: nat)
    requires at + 4 * count <= |mem|
    ensures BeWords(mem[at..at + 4 * count]) == WordsFrom(mem, at, count)
    decreases count
  {
    if count > 0 {
      WordsAre(mem, at + 4, count - 1);
      WordFits(mem, at);
      var d := mem[at..at + 4 * count];
      assert d[4..] == mem[at + 4..at + 4 + 4 * (count - 1)];
      assert d[..4] == mem[at..][..4];
      hide WordAt;
      assert Be32(d) == Be32(mem[at..]);
    }
  }

  lemma Header(v: nat, n: nat, front: seq<u8>, rest: seq<u8>)
    requires n == 2 || n == 3 || n == 4
    ensures var d := (front + Spelled(v, n) + rest)[|front|..];
            && (n == 2 ==> Be16(d) == v % 0x1_0000) && (n == 3 ==> Be24(d) == v % 0x100_0000) && (n == 4 ==> Be32(d) == v % WORD)
  {
    assert (front + Spelled(v, n) + rest)[|front|..] == Spelled(v, n) + rest;
    ReadBack(v, n, rest);
  }

  lemma XfHeader(addr: nat, words: nat)
    requires addr < 0x1_0000 && 1 <= words <= 16
    ensures var v := (words - 1) * 0x1_0000 + addr;
            v < WORD && v / 0x1_0000 % 16 + 1 == words && v % 0x1_0000 == addr
  {
  }

  lemma IndexedHeader(index: nat, count: nat, addr: nat)
    requires index < 0x1_0000 && 1 <= count <= 16 && addr < 0x1000
    ensures var v := index * 0x1_0000 + (count - 1) * 0x1000 + addr;
            v < WORD && v / 0x1_0000 == index && v / 0x1000 % 16 + 1 == count && v % 0x1000 == addr
  {
    var v := index * 0x1_0000 + (count - 1) * 0x1000 + addr;
    DivModUnique(v, 0x1_0000, index, (count - 1) * 0x1000 + addr);
    DivModUnique(v, 0x1000, index * 16 + (count - 1), addr);
    DivModUnique(index * 16 + (count - 1), 16, index, count - 1);
  }

  lemma Blocks(address: u32, length: u32)
    ensures (address - address % 32) % 0x2000_0000 == 32 * (address / 32 % 0x100_0000)
    ensures length - length % 32 == 32 * (length / 32)
  {
  }

  /** WHOLE COMMANDS.  Spelled out in front of any stream, a command other than a
      NOP has the size of its spelling, and no proper front of it is whole. */
  lemma EncodedSize(cp: CpRegs, c: Command, rest: seq<u8>)
    requires Proper(c) && Sized(cp, c) && !c.Nop?
    ensures CommandSize(cp, Encode(c) + rest) == |Encode(c)|
    ensures forall k :: 0 <= k < |Encode(c)| ==> CommandSize(cp, Encode(c)[..k]) == 0
  {
    hide VertexSize, Spelled, Be16, Be32;
    var d := Encode(c) + rest;
    match c
    case LoadXfWords(addr, words) => XfSize(cp, addr, words, rest);
    case Primitive(prim, vat, vertices, payload) => DrawSize(cp, prim, vat, vertices, payload, rest);
    case LoadXfIndexed(slot, _, _, _) => assert slot == 0 || slot == 1 || slot == 2 || slot == 3;
    case _ =>
  }

  /** The length an XF header announces, as soon as the header is there. */
  lemma XfAnnounces(addr: nat, words: nat, data: seq<u8>)
    requires addr < 0x1_0000 && 1 <= words <= 16
    ensures var d := [0x10] + Spelled((words - 1) * 0x1_0000 + addr, 4) + data;
            && |d| == 5 + |data| && d[0] == 0x10 && XfLength(d) == 5 + 4 * words
            && Be32(d[1..]) == (words - 1) * 0x1_0000 + addr && d[5..] == data
  {
    XfHeader(addr, words);
    Operand(0x10, (words - 1) * 0x1_0000 + addr, data);
    hide Spelled, Be32;
  }

  /** An opcode and a word, in front of anything. */
  lemma Operand(op: u8, v: u32, data: seq<u8>)
    ensures var d := [op] + Spelled(v, 4) + data;
            |d| == 5 + |data| && d[0] == op && Be32(d[1..]) == v && d[5..] == data
  {
    Header(v, 4, [op], data);
    hide Spelled, Be32;
  }

  lemma XfWhole(cp: CpRegs, d: seq<u8>, n: nat)
    requires |d| >= 5 && d[0] == 0x10 && XfLength(d) == n
    ensures CommandSize(cp, d) == if |d| < n then 0 else n
  {
    hide XfLength;
  }

  lemma XfSize(cp: CpRegs, addr: nat, words: seq<u32>, rest: seq<u8>)
    requires addr < 0x1_0000 && 1 <= |words| <= 16
    ensures var e := Encode(LoadXfWords(addr, words));
            CommandSize(cp, e + rest) == |e| && forall k :: 0 <= k < |e| ==> CommandSize(cp, e[..k]) == 0
  {
    var e, data := Encode(LoadXfWords(addr, words)), SpelledWords(words);
    var head := [0x10] + Spelled((|words| - 1) * 0x1_0000 + addr, 4);
    assert e == head + data && |head| == 5 && e[0] == 0x10;
    WordsBack(words);
    XfAnnounces(addr, |words|, data + rest);
    assert e + rest == head + (data + rest);
    XfWhole(cp, e + rest, 5 + 4 * |words|);
    hide Spelled, Be32, SpelledWords, XfLength, Encode;
    forall k | 0 <= k < |e|
      ensures CommandSize(cp, e[..k]) == 0
    {
      if k >= 5 {
        assert e[..k] == head + data[..k - 5];
        XfAnnounces(addr, |words|, data[..k - 5]);
        XfWhole(cp, e[..k], 5 + 4 * |words|);
      }
    }
  }

  lemma DrawWhole(cp: CpRegs, d: seq<u8>, n: nat)
    requires |d| >= 3 && IsPrim(d[0]) && !Unsizable(cp, d) && PrimLength(cp, d) == n
    ensures CommandSize(cp, d) == if |d| < n then 0 else n
  {
    hide PrimLength, Unsizable;
  }

  /** The size a draw header announces. */
  lemma DrawAnnounces(cp: CpRegs, prim: nat, vat: nat, vertices: nat, data: seq<u8>)
    requires prim < 8 && vat < 8 && vertices < 0x1_0000 && (vertices > 0 ==> VertexSize(cp, vat) > 0)
    ensures var d := [0x80 + 8 * prim + vat] + Spelled(vertices, 2) + data;
            && |d| == 3 + |data| && IsPrim(d[0]) && !Unsizable(cp, d)
            && PrimLength(cp, d) == 3 + DrawBytes(vertices, VertexSize(cp, vat))
  {
    hide Spelled, Be16, VertexSize, DrawBytes, IsPrim;
    Header(vertices, 2, [0x80 + 8 * prim + vat], data);
    DrawOp(prim, vat);
  }

  lemma DrawOp(prim: nat, vat: nat)
    requires prim < 8 && vat < 8
    ensures var op: u8 := 0x80 + 8 * prim + vat; IsPrim(op) && op % 8 == vat && op / 8 % 8 == prim
  {
  }

  lemma DrawSize(cp: CpRegs, prim: nat, vat: nat, vertices: nat, payload: seq<u8>, rest: seq<u8>)
    requires var c := Primitive(prim, vat, vertices, payload); Proper(c) && Sized(cp, c)
    ensures var e := Encode(Primitive(prim, vat, vertices, payload));
            CommandSize(cp, e + rest) == |e| && forall k :: 0 <= k < |e| ==> CommandSize(cp, e[..k]) == 0
  {
    var e := Encode(Primitive(prim, vat, vertices, payload));
    var head := [0x80 + 8 * prim + vat] + Spelled(vertices, 2);
    assert e == head + payload && |head| == 3 && e[0] == 0x80 + 8 * prim + vat;
    DrawAnnounces(cp, prim, vat, vertices, payload + rest);
    assert e + rest == head + (payload + rest);
    DrawWhole(cp, e + rest, |e|);
    hide Spelled, VertexSize, DrawBytes, PrimLength, Unsizable, Encode;
    forall k | 0 <= k < |e|
      ensures CommandSize(cp, e[..k]) == 0
    {
      if k >= 3 {
        assert e[..k] == head + payload[..k - 3];
        DrawAnnounces(cp, prim, vat, vertices, payload[..k - 3]);
        DrawWhole(cp, e[..k], |e|);
      }
    }
  }

  /** MEANING.  The decoder does with the spelling of a command what its fields
      say. */
  lemma EncodedMeans(g: Gx, c: Command)
    requires Proper(c)
    ensures |Encode(c)| >= HeaderLength(Encode(c)[0])
    ensures Apply(g, Encode(c)) == Perform(g, c)
  {
    hide VertexSize, Spelled, Be16, Be24, Be32, Run, LoadCp, StoreXf, LoadBp, LoadIndexed, BeWords, SpelledWords, WordsFrom;
    var e := Encode(c);
    match c
    case Nop => NopMeans(g);
    case LoadCpReg(reg, value) =>
      Header(value, 4, [0x08, reg], []);
      assert [0x08, reg] + Spelled(value, 4) + [] == e;
    case LoadXfWords(addr, words) => XfMeans(g, addr, words);
    case LoadXfIndexed(slot, index, count, addr) => IndexedMeans(g, slot, index, count, addr);
    case CallList(address, length) => CallMeans(g, address, length);
    case Primitive(prim, vat, vertices, payload) => DrawMeans(g, prim, vat, vertices, payload);
    case LoadBpReg(reg, value) =>
      Header(value, 3, [0x61, reg], []);
      assert [0x61, reg] + Spelled(value, 3) + [] == e;
    case Single(_) =>
  }

  lemma NopMeans(g: Gx)
    ensures HeaderLength(0x00) == 1 && Apply(g, [0x00]) == Marked(g, [0x00])
  {
    ApplyNops(g, [0x00]);
    assert seq(1, _ => [OP_NOP]) == [[0x00]];
  }

  lemma XfMeans(g: Gx, addr: nat, words: seq<u32>)
    requires addr < 0x1_0000 && 1 <= |words| <= 16
    ensures var e := Encode(LoadXfWords(addr, words));
            |e| >= 5 && Apply(g, e) == Marked(g, e).(xf := StoreXf(g.xf, addr, words))
  {
    hide Spelled, Be32, SpelledWords, StoreXf, BeWords, XfLength;
    var e, data := Encode(LoadXfWords(addr, words)), SpelledWords(words);
    XfAnnounces(addr, |words|, data);
    WordsBack(words);
    XfHeader(addr, |words|);
  }

  lemma IndexedOp(slot: nat)
    requires slot < 4
    ensures var op: u8 := 0x20 + 8 * slot; IsIndexed(op) && op / 8 + 8 == 12 + slot
  {
    assert slot == 0 || slot == 1 || slot == 2 || slot == 3;
  }

  lemma IndexedIs(g: Gx, op: u8, v: u32, slot: nat, index: nat, count: nat, addr: nat)
    requires slot < 4 && op / 8 + 8 == 12 + slot
    requires v / 0x1_0000 == index && v / 0x1000 % 16 + 1 == count && v % 0x1000 == addr
    ensures LoadIndexed(g, op, v)
            == if Source(g, slot, index) + 4 * count <= |g.mem|
               then StoreXf(g.xf, addr, BeWords(g.mem[Source(g, slot, index)..Source(g, slot, index) + 4 * count])) else g.xf
  {
    hide StoreXf, BeWords;
  }

  lemma ApplyIndexed(g: Gx, cmd: seq<u8>)
    requires |cmd| == 5 && IsIndexed(cmd[0])
    ensures Apply(g, cmd) == Marked(g, cmd).(xf := LoadIndexed(g, cmd[0], Be32(cmd[1..])))
  {
    hide LoadIndexed, Be32;
  }

  lemma IndexedOperand(slot: nat, index: nat, count: nat, addr: nat)
    requires Proper(LoadXfIndexed(slot, index, count, addr))
    ensures var e, v := Encode(LoadXfIndexed(slot, index, count, addr)), index * 0x1_0000 + (count - 1) * 0x1000 + addr;
            |e| == 5 && e[0] == 0x20 + 8 * slot && v < WORD && Be32(e[1..]) == v
  {
    var op, v := 0x20 + 8 * slot, index * 0x1_0000 + (count - 1) * 0x1000 + addr;
    IndexedHeader(index, count, addr);
    Operand(op, v, []);
    assert [op] + Spelled(v, 4) + [] == [op] + Spelled(v, 4);
    hide Spelled, Be32;
  }

  lemma PerformIndexed(g: Gx, slot: nat, index: nat, count: nat, addr: nat)
    requires Proper(LoadXfIndexed(slot, index, count, addr))
    ensures var c, src := LoadXfIndexed(slot, index, count, addr), Source(g, slot, index);
            Perform(g, c)
            == Marked(g, Encode(c)).(xf := if src + 4 * count <= |g.mem| then StoreXf(g.xf, addr, WordsFrom(g.mem, src, count)) else g.xf)
  {
    hide Source, StoreXf, WordsFrom, Encode;
  }

  lemma IndexedMeans(g: Gx, slot: nat, index: nat, count: nat, addr: nat)
    requires Proper(LoadXfIndexed(slot, index, count, addr))
    ensures var c := LoadXfIndexed(slot, index, count, addr);
            |Encode(c)| == 5 && Apply(g, Encode(c)) == Perform(g, c)
  {
    hide Perform, Encode, Apply, Source, StoreXf, WordsFrom, BeWords, LoadIndexed, Be32, Marked;
    var c, v := LoadXfIndexed(slot, index, count, addr), index * 0x1_0000 + (count - 1) * 0x1000 + addr;
    IndexedHeader(index, count, addr);
    IndexedOp(slot);
    IndexedOperand(slot, index, count, addr);
    PerformIndexed(g, slot, index, count, addr);
    ApplyIndexed(g, Encode(c));
    IndexedIs(g, 0x20 + 8 * slot, v, slot, index, count, addr);
    if Source(g, slot, index) + 4 * count <= |g.mem| {
      WordsAre(g.mem, Source(g, slot, index), count);
    }
  }

  lemma ApplyCall(g: Gx, cmd: seq<u8>)
    requires |cmd| == 9 && cmd[0] == 0x40
    ensures Apply(g, cmd) == GxDecode.CallList(Marked(g, cmd), Be32(cmd[1..]), Be32(cmd[5..]))
  {
    hide GxDecode.CallList, Be32;
  }

  lemma CallRuns(g: Gx, address: u32, length: u32)
    ensures var start, size := BlockStart(address), BlockSize(length);
            GxDecode.CallList(g, address, length)
            == if g.depth == 0 && size > 0 && start + size <= |g.mem|
               then Run(g.(depth := 1), g.mem[start..start + size]).g.(depth := 0) else g
  {
    Blocks(address, length);
    hide Run;
  }

  lemma PerformCall(g: Gx, address: u32, length: u32)
    ensures var c, start, size := Command.CallList(address, length), BlockStart(address), BlockSize(length);
            && Encode(c) == [0x40] + Spelled(address, 4) + Spelled(length, 4)
            && var h := Marked(g, Encode(c));
               Perform(g, c) == if g.depth == 0 && size > 0 && start + size <= |g.mem|
                                then Run(h.(depth := 1), g.mem[start..start + size]).g.(depth := 0) else h
  {
    hide Spelled, Run, BlockStart, BlockSize;
  }

  lemma MarkedKeeps(g: Gx, cmd: seq<u8>)
    ensures Marked(g, cmd).depth == g.depth && Marked(g, cmd).mem == g.mem
  {
  }

  lemma CallMeans(g: Gx, address: u32, length: u32)
    ensures var c := Command.CallList(address, length);
            |Encode(c)| == 9 && Apply(g, Encode(c)) == Perform(g, c)
  {
    var c := Command.CallList(address, length);
    PerformCall(g, address, length);
    CallOperands(address, length);
    MarkedKeeps(g, Encode(c));
    ApplyCall(g, Encode(c));
    CallRuns(Marked(g, Encode(c)), address, length);
    hide *;
  }

  lemma CallOperands(address: u32, length: u32)
    ensures var e := [0x40] + Spelled(address, 4) + Spelled(length, 4);
            |e| == 9 && Be32(e[1..]) == address && Be32(e[5..]) == length
  {
    var e := [0x40] + Spelled(address, 4) + Spelled(length, 4);
    Header(address, 4, [0x40], Spelled(length, 4));
    Header(length, 4, [0x40] + Spelled(address, 4), []);
    assert e + [] == e;
    hide Spelled, Be32;
  }

  lemma DrawMeans(g: Gx, prim: nat, vat: nat, vertices: nat, payload: seq<u8>)
    requires Proper(Primitive(prim, vat, vertices, payload))
    ensures var c := Primitive(prim, vat, vertices, payload);
            |Encode(c)| >= 3 && Apply(g, Encode(c)) == Perform(g, c)
  {
    var op := 0x80 + 8 * prim + vat;
    DrawOp(prim, vat);
    hide Spelled, VertexSize;
  }

  // ---- streams ------------------------------------------------------------

  function EncodeAll(cs: seq<Command>): seq<u8>
    requires forall i :: 0 <= i < |cs| ==> Proper(cs[i])
  {
    if cs == [] then [] else Encode(cs[0]) + EncodeAll(cs[1..])
  }

  /** Every draw is sized by the formats that are live when it comes. */
  ghost predicate AllSized(g: Gx, cs: seq<Command>)
    requires forall i :: 0 <= i < |cs| ==> Proper(cs[i])
    decreases |cs|
  {
    cs != [] ==> Sized(g.cp, cs[0]) && AllSized(Perform(g, cs[0]), cs[1..])
  }

  function PerformAll(g: Gx, cs: seq<Command>): Gx
    requires forall i :: 0 <= i < |cs| ==> Proper(cs[i])
    decreases |cs|
  {
    if cs == [] then g else PerformAll(Perform(g, cs[0]), cs[1..])
  }

  /** ROUND TRIP.  A stream of commands, spelled out, is executed command by
      command, each as its fields say, and to its last byte. */
  lemma {:induction false} StreamRoundTrip(g: Gx, cs: seq<Command>)
    requires forall i :: 0 <= i < |cs| ==> Proper(cs[i])
    requires AllSized(g, cs)
    ensures Run(g, EncodeAll(cs)) == Ran(PerformAll(g, cs), |EncodeAll(cs)|)
    decreases |cs|
  {
    hide Run, Apply, CommandSize, Encode, Perform, Sized;
    RunStep(g, EncodeAll(cs));
    if cs == [] {
      NothingToRun(g.cp);
    } else {
      var c, rest := cs[0], EncodeAll(cs[1..]);
      var e := Encode(c);
      assert (e + rest)[..|e|] == e && (e + rest)[|e|..] == rest;
      EncodedMeans(g, c);
      StreamRoundTrip(Perform(g, c), cs[1..]);
      if c.Nop? {
        EncodedNop();
        NopPeel(g, e + rest);
      } else {
        EncodedSize(g.cp, c, rest);
      }
    }
  }

  lemma NothingToRun(cp: CpRegs)
    ensures CommandSize(cp, []) == 0
  {
  }

  lemma EncodedNop()
    ensures Encode(Nop) == [0x00]
  {
  }

  /** ARRAYS FROM THE STREAM.  An indexed load fetches through the base and the
      stride that loads of 0xAC to 0xAF and of 0xBC to 0xBF have left. */
  lemma LoadedArrays(g: Gx, slot: nat, base: u32, stride: u32, index: nat, count: nat, addr: nat)
    requires Proper(LoadXfIndexed(slot, index, count, addr))
    ensures var h := Perform(Perform(g, LoadCpReg(0xAC + slot, base)), LoadCpReg(0xBC + slot, stride));
            var src := Element(base % 0x2000_0000, index, stride % 0x100);
            Perform(h, LoadXfIndexed(slot, index, count, addr)).xf
            == if src + 4 * count <= |g.mem| then StoreXf(g.xf, addr, WordsFrom(g.mem, src, count)) else g.xf
  {
    TwoLoads(g, slot, base, stride);
    var h := Perform(Perform(g, LoadCpReg(0xAC + slot, base)), LoadCpReg(0xBC + slot, stride));
    hide Perform, StoreXf, WordsFrom, Encode, LoadCp, Marked, Source, Element;
    SourceIs(h, slot, index, base % 0x2000_0000, stride % 0x100);
    PerformIndexed(h, slot, index, count, addr);
    MarkedKeepsXf(h, Encode(LoadXfIndexed(slot, index, count, addr)));
  }

  lemma SourceIs(g: Gx, slot: nat, index: nat, base: nat, stride: nat)
    requires slot < 4 && g.cp.bases[12 + slot] == base < 0x2000_0000 && g.cp.strides[12 + slot] == stride
    ensures Source(g, slot, index) == Element(base, index, stride)
  {
  }

  lemma MarkedKeepsXf(g: Gx, cmd: seq<u8>)
    ensures Marked(g, cmd).xf == g.xf && Marked(g, cmd).mem == g.mem
  {
  }

  lemma TwoLoads(g: Gx, slot: nat, base: u32, stride: u32)
    requires slot < 4
    ensures var h := Perform(Perform(g, LoadCpReg(0xAC + slot, base)), LoadCpReg(0xBC + slot, stride));
            && h.cp.bases[12 + slot] == base % 0x2000_0000 && h.cp.strides[12 + slot] == stride % 0x100
            && h.xf == g.xf && h.mem == g.mem
  {
    hide Encode, StoreXf, WordsFrom;
  }
}
