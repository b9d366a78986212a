/** The graphics consumer as the object the runtime keeps (`gx.c`): register
    files and a staging buffer updated in place, each operation proved against
    the decoder's functions. */
module GxDevice {
  import opened Bytes
  import opened GxDecode
  import opened GxStream
  import opened CommandFifo
  import opened GxSync
  import opened CpDevice
  import R = GxRegisters

  lemma {:induction false} WordAt(d: seq<u8>, i: nat)
    requires |d| % 4 == 0 && 4 * i + 4 <= |d|
    ensures |BeWords(d)| == |d| / 4
    ensures BeWords(d)[i] == Be32(d[4 * i..])
    decreases |d|
  {
    WordCount(d);
    if i > 0 {
      WordAt(d[4..], i - 1);
      assert d[4..][4 * (i - 1)..] == d[4 * i..];
    } else {
      assert d[0..] == d;
    }
  }

  lemma {:induction false} WordCount(d: seq<u8>)
    requires |d| % 4 == 0
    ensures |BeWords(d)| == |d| / 4
    decreases |d|
  {
    if |d| >= 4 {
      WordCount(d[4..]);
    }
  }

  class Consumer {
    const mem: seq<u8>
    var cp: CpRegs
    const bp: array<u32>
    const xf: array<u32>
    var depth: nat
    var pe: seq<PeEvent>
    var effects: seq<Effect>
    ghost var log: seq<seq<u8>>
    const buf: array<u8>
    var staged: nat

    ghost predicate Valid()
      reads `staged
    {
      bp.Length == 256 && xf.Length == XF_WORDS && bp != xf
      && buf.Length == STAGING && staged <= STAGING
    }

    ghost function View(): Gx
      requires Valid()
      reads this, bp, xf
    {
      Gx(mem, depth, cp, bp[..], xf[..], pe, effects, log)
    }

    function Staged(): seq<u8>
      requires Valid()
      reads this, buf
    {
      buf[..staged]
    }

    /** gcn_gx_init: everything zero but the write mask. */
    constructor (mem: seq<u8>)
      ensures Valid() && fresh(bp) && fresh(xf) && fresh(buf)
      ensures View() == PowerOn(mem) && Staged() == []
    {
      this.mem := mem;
      cp := NoRegs();
      bp := new u32[256](_ => 0);
      xf := new u32[XF_WORDS](_ => 0);
      buf := new u8[STAGING](_ => 0);
      depth, pe, effects, log, staged := 0, [], [], [], 0;
      new;
      bp[BP_MASK] := 0xFF_FFFF;
      assert bp[..] == PowerOn(mem).bp;
      assert xf[..] == PowerOn(mem).xf;
    }

    /** Every number of the register loaded then holds the value cut to its
        width, every other number what it held. */
    method OnCp(reg: u8, value: u32)
      requires Valid()
      modifies `cp
      ensures forall r: u8 :: R.Held(cp, r) == if R.Stored(reg) && R.Home(r) == R.Home(reg) then value % R.Room(reg) else R.Held(old(cp), r)
      ensures View() == old(View()).(cp := LoadCp(old(cp), reg, value))
    {
      forall r: u8 {
        R.CpLoad(cp, reg, value, r);
      }
      var group := reg / 16;
      if group == 3 {
        cp := cp.(matA := value);
      } else if group == 4 {
        cp := cp.(matB := value);
      } else if group == 5 {
        cp := cp.(vcdLo := value);
      } else if group == 6 {
        cp := cp.(vcdHi := value);
      } else if group == 7 {
        cp := cp.(vatA := cp.vatA[reg % 8 := value]);
      } else if group == 8 {
        cp := cp.(vatB := cp.vatB[reg % 8 := value]);
      } else if group == 9 {
        cp := cp.(vatC := cp.vatC[reg % 8 := value]);
      } else if group == 10 {
        cp := cp.(bases := cp.bases[reg % 16 := value % 0x2000_0000]);
      } else if group == 11 {
        cp := cp.(strides := cp.strides[reg % 16 := value % 256]);
      }
    }

    /** Store big-endian words from `address` on; what lies past the end of XF
        memory is dropped word by word. */
    method OnXf(address: nat, data: seq<u8>)
      requires Valid() && |data| % 4 == 0
      modifies xf
      ensures xf[..] == StoreXf(old(xf[..]), address, BeWords(data))
      ensures View() == old(View()).(xf := xf[..])
    {
      ghost var words := BeWords(data);
      WordCount(data);
      for i := 0 to |data| / 4
        invariant StoreXf(xf[..], address + i, words[i..]) == StoreXf(old(xf[..]), address, words)
      {
        WordAt(data, i);
        assert words[i..][0] == Be32(data[4 * i..]) && words[i..][1..] == words[i + 1..];
        if address + i < XF_WORDS {
          ghost var before := xf[..];
          xf[address + i] := Be32(data[4 * i..]);
          assert xf[..] == before[address + i := words[i]];
        }
      }
    }

    method OnIndexedXf(op: u8, value: u32)
      requires Valid() && IsIndexed(op)
      modifies xf
      ensures View() == old(View()).(xf := LoadIndexed(old(View()), op, value))
    {
      var count := value / 0x1000 % 16 + 1;
      var slot := op / 8 + 8;
      if slot >= 16 {
        return;
      }
      var src := cp.bases[slot] % 0x2000_0000 + value / 0x1_0000 * cp.strides[slot];
      if src + 4 * count > |mem| {
        return;
      }
      OnXf(value % 0x1000, mem[src..src + 4 * count]);
    }

    /** One masked write; the mask register is one-shot.  Register 0x47 makes a
        token, 0x48 one with an interrupt, 0x45 a finish if its low byte is 2. */
    method OnBp(reg: u8, raw: u32)
      requires Valid()
      modifies bp, `pe, `effects
      ensures View() == LoadBp(old(View()), reg, raw)
      ensures pe == old(pe) + (if reg == 0x47 then [Token(bp[reg] % 0x1_0000, false)]
                               else if reg == 0x48 then [Token(bp[reg] % 0x1_0000, true)]
                               else if reg == 0x45 && bp[reg] % 256 == 2 then [Finish] else [])
    {
      hide Merge;
      var value: u32 := Merge(bp[reg], raw, bp[BP_MASK], 24) % 0x100_0000;
      ghost var before: seq<u32> := bp[..];
      ghost var masked: seq<u32> := if reg != BP_MASK then before[BP_MASK := 0xFF_FFFF] else before;
      if reg != BP_MASK {
        bp[BP_MASK] := 0xFF_FFFF;
      }
      bp[reg] := value;
      assert bp[..] == masked[reg := value];
      if reg == BP_DRAW_DONE {
        if value % 256 == 2 {
          pe := pe + [Finish];
        }
      } else if reg == BP_TOKEN {
        pe := pe + [Token(value % 0x1_0000, false)];
      } else if reg == BP_TOKEN_INT {
        pe := pe + [Token(value % 0x1_0000, true)];
      } else if reg == BP_EFB_COPY {
        effects := effects + [EfbCopy];
      } else if reg == BP_TLUT1 {
        var count := value / 0x400 % 0x800 * 32;
        var src := (bp[BP_TLUT0] as int) * 32 % 0x200_0000;
        if src + count <= |mem| {
          effects := effects + [LoadTlut(value % 0x400 * 0x200, src, count)];
        }
      }
    }

    /** Count the NOPs at the front. */
    method NopCount(data: seq<u8>) returns (count: nat)
      requires |data| > 0 && data[0] == OP_NOP
      ensures count == NopRun(data)
    {
      count := 1;
      assert data[0..] == data;
      while count < |data| && data[count] == OP_NOP
        invariant 1 <= count <= |data|
        invariant NopRun(data) == count + NopRun(data[count..])
      {
        assert data[count..][1..] == data[count + 1..];
        count := count + 1;
      }
    }

    /** popcount9: a byte for each matrix index. */
    method CountBits(v: nat) returns (n: nat)
      ensures n == PopCount(v, 9)
    {
      n := 0;
      var left := v;
      for i := 0 to 9
        invariant n + PopCount(left, 9 - i) == PopCount(v, 9)
      {
        n := n + left % 2;
        left := left / 2;
      }
    }

    method SizeVertex(vat: nat) returns (size: nat)
      requires vat < 8
      ensures size == VertexSize(cp, vat)
    {
      hide Field, PosSize, NormSize, ColorSize, OneTexSize;
      var low, a := cp.vcdLo, cp.vatA[vat];
      size := CountBits(low);
      size := size + PosSize(Field(low, 0x200, 4), Field(a, 0x2, 8), Field(a, 0x1, 2));
      size := size + NormSize(Field(low, 0x800, 4), Field(a, 0x400, 8), Field(a, 0x200, 2), Field(a, 0x80000000, 2));
      size := size + ColorSize(Field(low, 0x2000, 4), Field(a, 0x4000, 8));
      size := size + ColorSize(Field(low, 0x8000, 4), Field(a, 0x40000, 8));
      ghost var fixed := size;
      for i := 0 to 8
        invariant size == fixed + TexSizes(cp, vat, i)
      {
        size := size + OneTexSize(cp, vat, i);
      }
    }

    // ---- one command ------------------------------------------------------

    /** A top-level command is noted as executed. */
    ghost method Note(cmd: seq<u8>)
      requires Valid() && |cmd| > 0
      modifies `log
      ensures View() == Noted(old(View()), cmd)
    {
      if depth == 0 {
        log := log + Entries(cmd);
      }
    }

    method LoadCpCommand(data: seq<u8>) returns (n: nat)
      requires Valid() && |data| > 0 && data[0] == OP_LOAD_CP
      modifies `cp, `log
      ensures Valid()
      ensures Did(old(View()), View(), data, n)
    {
      hide VertexSize, Merge, LoadCp, LoadBp;
      if |data| < 6 {
        return 0;
      }
      n := 6;
      assert data[..6][2..] == data[2..6];
      Note(data[..6]);
      OnCp(data[1], Be32(data[2..]));
    }

    method LoadBpCommand(data: seq<u8>) returns (n: nat)
      requires Valid() && |data| > 0 && data[0] == OP_LOAD_BP
      modifies bp, `pe, `effects, `log
      ensures Valid()
      ensures Did(old(View()), View(), data, n)
    {
      hide VertexSize, Merge, LoadCp, LoadBp;
      if |data| < 5 {
        return 0;
      }
      n := 5;
      assert data[..5][2..] == data[2..5];
      Note(data[..5]);
      OnBp(data[1], Be24(data[2..]));
    }

    method LoadXfCommand(data: seq<u8>) returns (n: nat)
      requires Valid() && |data| > 0 && data[0] == OP_LOAD_XF
      modifies xf, `log
      ensures Did(old(View()), View(), data, n)
    {
      if |data| < 5 || |data| < XfLength(data) {
        return 0;
      }
      n := XfLength(data);
      var word := Be32(data[1..]);
      assert data[..n][1..][..4] == data[1..][..4];
      assert data[..n][5..] == data[5..n];
      Note(data[..n]);
      OnXf(word % 0x1_0000, data[5..n]);
    }

    method PrimitiveCommand(data: seq<u8>) returns (n: nat)
      requires Valid() && |data| > 0 && IsPrim(data[0])
      modifies `effects, `log
      ensures Did(old(View()), View(), data, n)
    {
      hide VertexSize;
      if |data| < 3 {
        return 0;
      }
      var op := data[0];
      var vsize := SizeVertex(op % 8);
      var vertices := Be16(data[1..]);
      if vertices > 0 && vsize == 0 {
        return 0;
      }
      n := 3 + DrawBytes(vertices, vsize);
      if |data| < n {
        return 0;
      }
      Note(data[..n]);
      assert data[..n][3..] == data[3..n];
      effects := effects + [Draw(op / 8 % 8, op % 8, vsize, data[3..n])];
    }

    /** Run a display list in place, unless one is running already. */
    method CallDisplayList(addr: u32, length: u32)
      requires Valid()
      modifies bp, xf, `cp, `depth, `pe, `effects, `log
      ensures Valid()
      ensures View() == CallList(old(View()), addr, length)
      decreases if depth == 0 then 1 else 0, 0, 0
    {
      hide Run, Apply, CommandSize;
      if depth > 0 {
        return;
      }
      var start := (addr - addr % 32) % 0x2000_0000;
      var size := length - length % 32;
      if size > 0 && start + size <= |mem| {
        depth := depth + 1;
        var used := RunLoop(mem[start..start + size]);
        depth := depth - 1;
      }
    }

    method CallCommand(data: seq<u8>) returns (n: nat)
      requires Valid() && |data| > 0 && data[0] == OP_CALL_DL
      modifies bp, xf, `cp, `depth, `pe, `effects, `log
      ensures Valid()
      ensures Did(old(View()), View(), data, n)
      decreases if depth == 0 then 1 else 0, |data|, 0
    {
      if |data| < 9 {
        return 0;
      }
      n := 9;
      CallSpec(View(), data);
      hide CallList, Apply, CommandSize;
      Note(data[..9]);
      CallDisplayList(Be32(data[1..]), Be32(data[5..]));
    }

    /** Execute the command at the front of `data` if it is whole; 0 if not. */
    method RunCommand(data: seq<u8>) returns (n: nat)
      requires Valid()
      modifies bp, xf, `cp, `depth, `pe, `effects, `log
      ensures Valid()
      ensures Did(old(View()), View(), data, n)
      decreases if depth == 0 then 1 else 0, |data|, 1
    {
      hide VertexSize, Merge, LoadCp, LoadBp, StoreXf, LoadIndexed, Run, CallList;
      if |data| < 1 {
        return 0;
      }
      var op := data[0];
      if op == OP_NOP {
        n := NopCount(data);
        Note(data[..n]);
      } else if op == OP_LOAD_CP {
        n := LoadCpCommand(data);
      } else if op == OP_LOAD_XF {
        n := LoadXfCommand(data);
      } else if IsIndexed(op) {
        if |data| < 5 {
          return 0;
        }
        n := 5;
        assert data[..5][1..] == data[1..5];
        IndexedIgnoresLog(View(), data[..5], op, Be32(data[1..]));
        Note(data[..5]);
        OnIndexedXf(op, Be32(data[1..]));
      } else if op == OP_CALL_DL {
        n := CallCommand(data);
      } else if op == OP_METRICS || op == OP_INVL_VC {
        n := 1;
        Note(data[..1]);
      } else if op == OP_LOAD_BP {
        n := LoadBpCommand(data);
      } else if IsPrim(op) {
        n := PrimitiveCommand(data);
      } else {
        n := 1;
        Note(data[..1]);
      }
    }

    /** Execute whole commands until a partial one. */
    method RunLoop(data: seq<u8>) returns (off: nat)
      requires Valid()
      modifies bp, xf, `cp, `depth, `pe, `effects, `log
      ensures Valid()
      ensures Run(old(View()), data) == Ran(View(), off)
      decreases if depth == 0 then 1 else 0, |data|, 2
    {
      hide Run, Apply, CommandSize;
      off := 0;
      assert data[0..] == data;
      while off < |data|
        invariant Valid() && off <= |data| && depth == old(depth)
        invariant var rest := Run(View(), data[off..]); Run(old(View()), data) == Ran(rest.g, off + rest.used)
        decreases |data| - off
      {
        RunStep(View(), data[off..]);
        var n := RunCommand(data[off..]);
        if n == 0 {
          return;
        }
        SlicesCompose(data, off, n);
        off := off + n;
      }
      EmptyRun(View());
    }

    // ---- staging and the synchronous tick ---------------------------------

    method Append(chunk: seq<u8>)
      requires Valid() && staged + |chunk| <= STAGING
      modifies buf, `staged
      ensures Valid() && Staged() == old(Staged()) + chunk
    {
      ghost var before := Staged();
      for i := 0 to |chunk|
        invariant staged == old(staged) && buf[..staged + i] == before + chunk[..i]
      {
        buf[staged + i] := chunk[i];
        assert buf[..staged + i] == before + chunk[..i];
      }
      staged := staged + |chunk|;
    }

    /** Move what follows the first `taken` bytes to the front. */
    method Shift(taken: nat)
      requires Valid() && taken <= staged
      modifies buf, `staged
      ensures Valid() && Staged() == old(Staged())[taken..]
    {
      ghost var before := Staged();
      for i := 0 to staged - taken
        invariant staged == old(staged) && buf[..i] == before[taken..taken + i]
        invariant buf[taken + i..staged] == before[taken + i..]
      {
        assert buf[taken + i] == buf[taken + i..staged][0] == before[taken + i];
        assert buf[taken + i + 1..staged] == buf[taken + i..staged][1..];
        buf[i] := buf[taken + i];
      }
      staged := staged - taken;
    }

    /** Run what is staged and keep the partial command at its end. */
    method Decode()
      requires Valid()
      modifies bp, xf, buf, `cp, `depth, `pe, `effects, `log, `staged
      ensures Valid()
      ensures View() == Run(old(View()), old(Staged())).g
      ensures Staged() == Leftover(old(View()), old(Staged()))
    {
      hide Run, Apply, CommandSize;
      var consumed := RunLoop(buf[..staged]);
      if consumed > 0 {
        Shift(consumed);
      } else {
        assert Staged()[0..] == Staged();
      }
    }

    ghost function Now(fifo: CommandProcessor, ram: seq<u8>): Machine
      requires Valid() && fifo.Valid()
      reads this, bp, xf, buf, fifo, fifo.reg
    {
      Machine(Arch(fifo.View(), ram), View(), Staged())
    }

    method TakeOne(fifo: CommandProcessor, ram: seq<u8>)
      requires Valid() && fifo.Valid() && CanTake(Now(fifo, ram).arch) && staged + CHUNK <= STAGING
      modifies bp, xf, buf, `cp, `depth, `pe, `effects, `log, `staged, fifo, fifo.reg
      ensures Valid() && fifo.Valid()
      ensures Now(fifo, ram) == SyncChunk(old(Now(fifo, ram)))
    {
      var at := Phys(fifo.U32(RPTR_LO));
      hide Run, Leftover, Consume;
      Append(ram[at..at + CHUNK]);
      fifo.ConsumeChunk();
      Decode();
    }

    /** The drain loop of a synchronous tick, `drained` bytes into its budget. */
    method Drain(fifo: CommandProcessor, ram: seq<u8>, already: nat)
      requires Valid() && fifo.Valid()
      modifies bp, xf, buf, `cp, `depth, `pe, `effects, `log, `staged, fifo, fifo.reg
      ensures Valid() && fifo.Valid()
      ensures Now(fifo, ram) == SyncLoop(old(Now(fifo, ram)), already)
    {
      hide SyncChunk, SyncLoop, Phys;
      var drained := already;
      while drained < BUDGET
        invariant Valid() && fifo.Valid()
        invariant SyncLoop(Now(fifo, ram), drained) == SyncLoop(old(Now(fifo, ram)), already)
        decreases BUDGET - drained
      {
        LoopUnfolds(Now(fifo, ram), drained);
        var stopped := fifo.IsAtBreakpoint();
        if fifo.U32(DIST_LO) < CHUNK || stopped {
          return;
        }
        if Phys(fifo.U32(RPTR_LO)) + CHUNK > |ram| {
          return;
        }
        if staged + CHUNK > STAGING {
          return;
        }
        TakeOne(fifo, ram);
        drained := drained + CHUNK;
      }
      LoopUnfolds(Now(fifo, ram), drained);
    }

    /** gcn_gx_tick with the pipeline off. */
    method Tick(fifo: CommandProcessor, ram: seq<u8>)
      requires Valid() && fifo.Valid()
      modifies bp, xf, buf, `cp, `depth, `pe, `effects, `log, `staged, fifo, fifo.reg
      ensures Valid() && fifo.Valid()
      ensures Now(fifo, ram) == SyncTick(old(Now(fifo, ram)))
    {
      hide SyncLoop;
      if !fifo.readEnable {
        return;
      }
      Drain(fifo, ram, 0);
    }
  }

  lemma LoopUnfolds(m: Machine, d: nat)
    ensures SyncLoop(m, d) == if SyncGuard(m, d) then SyncLoop(SyncChunk(m), d + CHUNK) else m
  {
    hide SyncChunk;
  }

  lemma EmptyRun(g: Gx)
    ensures Run(g, []) == Ran(g, 0)
  {
  }

  ghost function Noted(g: Gx, cmd: seq<u8>): Gx
    requires |cmd| > 0
  {
    if g.depth == 0 then g.(log := g.log + Entries(cmd)) else g
  }

  /** From `g`, the front command of `data` has been executed, giving `h`; or
      there is none, and nothing has changed. */
  ghost predicate Did(g: Gx, h: Gx, data: seq<u8>, n: nat) {
    && n == CommandSize(g.cp, data)
    && (n == 0 ==> h == g)
    && (n > 0 ==> h == Apply(g, data[..n]))
  }

  lemma IndexedIgnoresLog(g: Gx, cmd: seq<u8>, op: u8, value: u32)
    requires |cmd| > 0
    ensures LoadIndexed(Noted(g, cmd), op, value) == LoadIndexed(g, op, value)
  {
  }

  lemma CallSpec(g: Gx, data: seq<u8>)
    requires |data| >= 9 && data[0] == OP_CALL_DL
    ensures CommandSize(g.cp, data) == 9
    ensures Apply(g, data[..9]) == CallList(Noted(g, data[..9]), Be32(data[1..]), Be32(data[5..]))
  {
    hide VertexSize, LoadBp, StoreXf, LoadIndexed, LoadCp, CallList, NopRun, BeWords;
    assert data[..9][1..] == data[1..9];
    assert data[..9][5..] == data[5..9];
  }
}
