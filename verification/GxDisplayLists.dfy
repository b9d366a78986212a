/** What fences do not cover.  The scanner sees that a display list is called
    but not what is in it, so a pixel-engine write inside a list raises no
    fence and can land after the tick in which the synchronous consumer would
    have performed it.  Here: what a list says, and a run in which it lags; when
    exactly it can is in `GxLaggingRuns`. */
module GxDisplayLists {
  import opened Arithmetic
  import opened BigEndian
  import opened Bytes
  import opened GxDecode
  import opened GxStream
  import opened GxScanner
  import opened CommandFifo
  import opened GxSync
  import opened GxPipeline
  import opened GxFlow
  import opened GxPipelineInv
  import opened GxPipelineSteps
  import opened GxPipelineRefines
  import opened GxPipelineTheorems
  import opened GxPipelineLive
  import opened GxUnsafeResume
  import R = GxRegisters

  // ---- what a list says to the pixel engine -------------------------------

  /** The registers that decide what a command says: vertex formats, for sizes,
      and the BP file, for masked writes. */
  datatype Regs = Regs(cp: CpRegs, bp: File256)

  function RegsOf(g: Gx): Regs {
    Regs(g.cp, g.bp)
  }

  function StoreBp(bp: File256, reg: u8, raw: u32): File256 {
    var value: u32 := Merge(bp[reg], raw, bp[BP_MASK], 24) % 0x100_0000;
    (if reg != BP_MASK then bp[BP_MASK := 0xFF_FFFF] else bp)[reg := value]
  }

  predicate IsCommand(cmd: seq<u8>) {
    |cmd| > 0 && |cmd| >= HeaderLength(cmd[0])
  }

  /** The registers after a command other than a call. */
  function StepRegs(r: Regs, cmd: seq<u8>): Regs
    requires IsCommand(cmd)
  {
    if cmd[0] == OP_LOAD_CP then r.(cp := LoadCp(r.cp, cmd[1], Be32(cmd[2..])))
    else if cmd[0] == OP_LOAD_BP then r.(bp := StoreBp(r.bp, cmd[1], Be24(cmd[2..])))
    else r
  }

  /** A write to a token register, or one to the draw-done register that makes
      its low byte 2; the write mask has its say in that byte. */
  predicate Tells(r: Regs, cmd: seq<u8>)
    requires IsCommand(cmd)
  {
    && cmd[0] == OP_LOAD_BP
    && (|| cmd[1] == BP_TOKEN || cmd[1] == BP_TOKEN_INT
        || (cmd[1] == BP_DRAW_DONE && Merge(r.bp[BP_DRAW_DONE], Be24(cmd[2..]), r.bp[BP_MASK], 8) == 2))
  }

  /** Some command of a list tells the pixel engine something. */
  predicate ListTells(r: Regs, list: seq<u8>)
    decreases |list|
  {
    var n := CommandSize(r.cp, list);
    n > 0 && (Tells(r, list[..n]) || ListTells(StepRegs(r, list[..n]), list[n..]))
  }

  function ListRegs(r: Regs, list: seq<u8>): Regs
    decreases |list|
  {
    var n := CommandSize(r.cp, list);
    if n == 0 then r else ListRegs(StepRegs(r, list[..n]), list[n..])
  }

  /** The list a call names, empty if it does not lie in memory. */
  function Called(mem: seq<u8>, cmd: seq<u8>): seq<u8>
    requires IsCommand(cmd) && cmd[0] == OP_CALL_DL
  {
    var addr, length := Be32(cmd[1..]), Be32(cmd[5..]);
    var start, size := (addr - addr % 32) % 0x2000_0000, length - length % 32;
    if start + size <= |mem| then mem[start..start + size] else []
  }

  /** Some list called by the whole commands of `d` tells the pixel engine
      something. */
  predicate CallsTell(r: Regs, mem: seq<u8>, d: seq<u8>)
    decreases |d|
  {
    var n := CommandSize(r.cp, d);
    n > 0 &&
    if d[0] == OP_CALL_DL then
      ListTells(r, Called(mem, d[..n])) || CallsTell(ListRegs(r, Called(mem, d[..n])), mem, d[n..])
    else CallsTell(StepRegs(r, d[..n]), mem, d[n..])
  }

  // ---- and what the decoder makes of it -----------------------------------

  /** The low bits of a masked write are the masked write of the low bits. */
  lemma {:induction false} MergeLow(prev: nat, next: nat, mask: nat, low: nat, high: nat)
    ensures Merge(prev, next, mask, low + high) % Twice(low) == Merge(prev, next, mask, low)
    decreases low
  {
    if low > 0 {
      var rest := Merge(prev / 2, next / 2, mask / 2, low - 1 + high);
      MergeLow(prev / 2, next / 2, mask / 2, low - 1, high);
      Doubled(rest, (if mask % 2 == 1 then next else prev) % 2, Twice(low - 1));
    }
  }

  lemma Doubled(rest: nat, bit: nat, m: nat)
    requires bit < 2 && m > 0
    ensures (bit + 2 * rest) % (2 * m) == bit + 2 * (rest % m)
  {
    var q, r := rest / m, rest % m;
    assert rest == m * q + r;
    assert 2 * (m * q) == 2 * m * q;
    DivModUnique(bit + 2 * rest, 2 * m, q, 2 * r + bit);
  }

  lemma DoneByte(prev: nat, next: nat, mask: nat)
    ensures Merge(prev, next, mask, 24) % 0x100_0000 % 256 == Merge(prev, next, mask, 8)
    ensures Merge(prev, next, mask, 24) % 0x100_0000 == Merge(prev, next, mask, 24)
  {
    assert Twice(8) == 256;
    R.WordOf24();
    MergeLow(prev, next, mask, 8, 16);
    R.MergeBound(prev, next, mask, 24);
    hide Merge, Twice;
  }

  /** One command outside a call: what it says, and the registers after it. */
  lemma CommandTells(g: Gx, cmd: seq<u8>)
    requires IsCommand(cmd) && (g.depth > 0 || cmd[0] != OP_CALL_DL)
    ensures Apply(g, cmd).pe == g.pe <==> !Tells(RegsOf(g), cmd)
    ensures RegsOf(Apply(g, cmd)) == StepRegs(RegsOf(g), cmd)
  {
    hide Merge, VertexSize, LoadIndexed, LoadCp, StoreXf;
    if cmd[0] == OP_LOAD_BP {
      DoneByte(g.bp[cmd[1]], Be24(cmd[2..]), g.bp[BP_MASK]);
    }
  }

  lemma ListStep(r: Regs, d: seq<u8>)
    ensures var n := CommandSize(r.cp, d);
            if n == 0 then !ListTells(r, d) && ListRegs(r, d) == r
            else
              && IsCommand(d[..n])
              && (ListTells(r, d) <==> Tells(r, d[..n]) || ListTells(StepRegs(r, d[..n]), d[n..]))
              && ListRegs(r, d) == ListRegs(StepRegs(r, d[..n]), d[n..])
  {
    hide CommandSize, StepRegs, Tells;
  }

  /** A list is silent in the decoder exactly if none of its commands tells. */
  lemma {:induction false} ListSays(g: Gx, d: seq<u8>)
    requires g.depth > 0
    ensures Run(g, d).g.pe == g.pe <==> !ListTells(RegsOf(g), d)
    ensures RegsOf(Run(g, d).g) == ListRegs(RegsOf(g), d)
    decreases |d|
  {
    hide Run, Apply, CommandSize, ListTells, ListRegs, Tells, StepRegs;
    RunStep(g, d);
    ListStep(RegsOf(g), d);
    var n := CommandSize(g.cp, d);
    if n > 0 {
      var next := Apply(g, d[..n]);
      CommandTells(g, d[..n]);
      ListSays(next, d[n..]);
      ApplyExtends(g, d[..n]);
      RunExtends(next, d[n..]);
    }
  }

  lemma NoList(r: Regs)
    ensures !ListTells(r, []) && ListRegs(r, []) == r
  {
  }

  lemma CallSays(g: Gx, cmd: seq<u8>)
    requires IsCommand(cmd) && cmd[0] == OP_CALL_DL && g.depth == 0
    ensures Apply(g, cmd).pe == g.pe <==> !ListTells(RegsOf(g), Called(g.mem, cmd))
    ensures RegsOf(Apply(g, cmd)) == ListRegs(RegsOf(g), Called(g.mem, cmd))
  {
    hide Run, ListTells, ListRegs;
    var list := Called(g.mem, cmd);
    var h := g.(log := g.log + Entries(cmd), depth := 1);
    ListSays(h, list);
    NoList(RegsOf(g));
  }

  lemma CallsStep(r: Regs, mem: seq<u8>, d: seq<u8>)
    ensures var n := CommandSize(r.cp, d);
            if n == 0 then !CallsTell(r, mem, d)
            else
              && IsCommand(d[..n]) && d[..n][0] == d[0]
              && (CallsTell(r, mem, d) <==>
                    if d[0] == OP_CALL_DL then
                      ListTells(r, Called(mem, d[..n])) || CallsTell(ListRegs(r, Called(mem, d[..n])), mem, d[n..])
                    else CallsTell(StepRegs(r, d[..n]), mem, d[n..]))
  {
    hide CommandSize, ListTells, ListRegs, StepRegs, Called;
  }

  lemma NoFenceTells(r: Regs, d: seq<u8>)
    requires ScanCommand(d).Whole? && !ScanCommand(d).fence && IsCommand(d[..ScanCommand(d).size])
    ensures !Tells(r, d[..ScanCommand(d).size])
  {
  }

  /** A stretch without draws and fences is silent in the decoder exactly if no
      list it calls tells. */
  lemma {:induction false} StretchSays(g: Gx, d: seq<u8>, pos: int)
    requires g.depth == 0 && Sizable(d) && FenceEnds(d, pos) == {}
    ensures Run(g, d).g.pe == g.pe <==> !CallsTell(RegsOf(g), g.mem, d)
    decreases |d|
  {
    hide Run, Apply, CommandSize, ScanCommand, Scan, FenceEnds, CallsTell, ListTells, ListRegs, StepRegs, Tells, Called;
    RunStep(g, d);
    ScanStep(d);
    FenceStep(d, pos);
    ScanAgrees(g.cp, d);
    CallsStep(RegsOf(g), g.mem, d);
    match ScanCommand(d)
    case Whole(n, f) =>
      assert !f;
      var next := Apply(g, d[..n]);
      ApplyExtends(g, d[..n]);
      RunExtends(next, d[n..]);
      StretchSays(next, d[n..], pos + n);
      if d[0] == OP_CALL_DL {
        CallSays(g, d[..n]);
      } else {
        CommandTells(g, d[..n]);
        NoFenceTells(RegsOf(g), d);
      }
    case _ =>
  }

  lemma PartialSays(g: Gx, d: seq<u8>)
    requires CommandSize(g.cp, d) == 0
    ensures Run(g, d).g.pe == g.pe && !CallsTell(RegsOf(g), g.mem, d)
  {
  }

  /** Between ticks: what is still to be executed. */
  lemma IdleSays(s: Sys)
    requires Inv(s) && s.cpu.Idle?
    ensures Run(s.g, Data(s)).g.pe == s.g.pe <==> !CallsTell(RegsOf(s.g), s.g.mem, Data(s))
  {
    IdleHasNoFence(s);
    IdleSizable(s);
    hide Run, FenceEnds, Data, Scan, CommandSize, Guarded, Mode, Carried, FencesAhead, Published, Wakes, CallsTell;
    if Sizable(Data(s)) {
      StretchSays(s.g, Data(s), Pos(s));
    } else {
      PartialSays(s.g, s.buf);
    }
  }

  // ---- a run in which the pixel engine lags --------------------------------

  function Ones(bits: nat): nat {
    if bits == 0 then 0 else 1 + 2 * Ones(bits - 1)
  }

  /** A write mask of all ones lets every bit of the new value through. */
  lemma {:induction false} MergeAll(prev: nat, next: nat, bits: nat)
    ensures Merge(prev, next, Ones(bits), bits) == next % (Ones(bits) + 1)
    decreases bits
  {
    hide Merge, Ones;
    if bits == 0 {
      NoBits(prev, next);
    } else {
      OneMoreBit(bits);
      MergeStep(prev, next, Ones(bits), bits);
      MergeAll(prev / 2, next / 2, bits - 1);
      Halve(next, Ones(bits - 1) + 1);
    }
  }

  lemma NoBits(prev: nat, next: nat)
    ensures Merge(prev, next, Ones(0), 0) == next % (Ones(0) + 1)
  {
  }

  lemma OneMoreBit(bits: nat)
    requires bits > 0
    ensures Ones(bits) % 2 == 1 && Ones(bits) / 2 == Ones(bits - 1)
    ensures Ones(bits) + 1 == 2 * (Ones(bits - 1) + 1)
  {
  }

  lemma MergeStep(prev: nat, next: nat, mask: nat, bits: nat)
    requires bits > 0 && mask % 2 == 1
    ensures Merge(prev, next, mask, bits) == next % 2 + 2 * Merge(prev / 2, next / 2, mask / 2, bits - 1)
  {
  }

  lemma Halve(n: nat, m: nat)
    requires m > 0
    ensures n % 2 + 2 * (n / 2 % m) == n % (2 * m)
  {
    var q, r := n / 2 / m, n / 2 % m;
    assert n / 2 == m * q + r;
    assert 2 * (m * q) == 2 * m * q;
    DivModUnique(n, 2 * m, q, 2 * r + n % 2);
  }

  /** A list that says the drawing is done, padded to one cache line. */
  function DoneList(): (d: seq<u8>)
    ensures |d| == 32
  {
    [OP_LOAD_BP, BP_DRAW_DONE, 0, 0, 2] + seq(27, _ => OP_NOP)
  }

  /** A chunk that calls the list at address 0. */
  function CallChunk(): (d: seq<u8>)
    ensures |d| == 32
  {
    [OP_CALL_DL, 0, 0, 0, 0, 0, 0, 0, 32] + seq(23, _ => OP_NOP)
  }

  lemma ListFinishes(g: Gx)
    requires g.bp[BP_MASK] == 0xFF_FFFF
    ensures Run(g, DoneList()).g.pe == g.pe + [Finish]
  {
    hide Run, Merge, Apply;
    var d := DoneList();
    assert d[0] == OP_LOAD_BP;
    assert CommandSize(g.cp, d) == 5;
    RunStep(g, d);
    var next := Apply(g, d[..5]);
    DoneApplied(g, d[..5]);
    assert d[5..] == seq(27, _ => OP_NOP);
    NopsAreSilent(next, 27);
  }

  lemma OnesValue()
    ensures Ones(24) == 0xFF_FFFF
  {
    assert Ones(6) == 63;
    assert Ones(12) == 0xFFF;
    assert Ones(18) == 0x3_FFFF;
  }

  lemma DoneApplied(g: Gx, cmd: seq<u8>)
    requires g.bp[BP_MASK] == 0xFF_FFFF && cmd == [OP_LOAD_BP, BP_DRAW_DONE, 0, 0, 2]
    ensures Apply(g, cmd).pe == g.pe + [Finish]
  {
    hide Merge;
    OnesValue();
    MergeAll(g.bp[BP_DRAW_DONE], 2, 24);
    assert Be24(cmd[2..]) == 2;
  }

  lemma NopsAreSilent(g: Gx, n: nat)
    ensures Run(g, seq(n, _ => OP_NOP)).g.pe == g.pe
    ensures Run(g, seq(n, _ => OP_NOP)).used == n
    ensures Leftover(g, seq(n, _ => OP_NOP)) == []
  {
    hide Run;
    var d: seq<u8> := seq(n, _ => OP_NOP);
    RunStep(g, d);
    if n > 0 {
      assert CommandSize(g.cp, d) == n;
      assert d[..n] == d && d[n..] == [];
      ApplyNops(g, d);
      RunStep(Apply(g, d), []);
    }
  }

  lemma CallFinishes(g: Gx)
    requires g.depth == 0 && g.mem == DoneList() && g.bp[BP_MASK] == 0xFF_FFFF
    ensures Run(g, CallChunk()).g.pe == g.pe + [Finish]
  {
    hide Run, Apply;
    var d := CallChunk();
    assert d[0] == OP_CALL_DL;
    assert CommandSize(g.cp, d) == 9;
    RunStep(g, d);
    CallApplied(g, d[..9]);
    assert d[9..] == seq(23, _ => OP_NOP);
    NopsAreSilent(Apply(g, d[..9]), 23);
  }

  lemma CallApplied(g: Gx, cmd: seq<u8>)
    requires g.depth == 0 && g.mem == DoneList() && g.bp[BP_MASK] == 0xFF_FFFF
    requires cmd == [OP_CALL_DL, 0, 0, 0, 0, 0, 0, 0, 32]
    ensures Apply(g, cmd).pe == g.pe + [Finish]
  {
    hide Run;
    assert Be32(cmd[1..]) == 0 && Be32(cmd[5..]) == 32;
    var h := g.(log := g.log + Entries(cmd), depth := 1);
    assert g.mem[0..32] == g.mem;
    ListFinishes(h);
  }

  function Idler(): seq<Label> { [Cpu] + [Cpu] }

  function Pusher(): seq<Label> { [Cpu] + ([Cpu] + ([Cpu] + ([Cpu] + ([Cpu] + [Cpu])))) }

  /** The chunk is in the ring: it is published, and nobody has to be woken. */
  lemma PublishRuns(s: Sys)
    requires s.cpu == Publish(0, 0, 0) && !s.parked
    ensures var ls := [Cpu] + ([Cpu] + ([Cpu] + [Cpu]));
            && IsRun(s, ls)
            && After(s, ls)
               == s.(produced := s.produced + CHUNK, epoch := s.epoch + 1, arch := TakeChunk(s.arch), cpu := Head(CHUNK, 0))
  {
    hide Served, CanTake, ChunkAt, TakeChunk, Overwrite, WorkerStep, WorkerEnabled, IsRun, After;
    var s3 := PublishStep(s);
    var s4 := HandshakeStep(s3);
    var s5 := HandshakeStep(s4);
    OneStep(s5, Cpu);
    RunCons(s4, Cpu, [Cpu]);
    RunCons(s3, Cpu, [Cpu] + [Cpu]);
    RunCons(s, Cpu, [Cpu] + ([Cpu] + [Cpu]));
  }

  /** The CPU pushes a chunk while the worker stands still. */
  lemma PushRuns(s: Sys)
    requires s.cpu == Waiting(Check, Space(0, 0, 0)) && Served(s, s.cpu.goal)
    requires !s.parked && !s.failed && CopyOk(s)
    ensures IsRun(s, Pusher())
    ensures After(s, Pusher())
            == s.(ring := Overwrite(s.ring, s.produced % RING, ChunkAt(s.arch)), produced := s.produced + CHUNK,
                  epoch := s.epoch + 1, arch := TakeChunk(s.arch), cpu := Head(CHUNK, 0))
  {
    hide Served, CanTake, ChunkAt, TakeChunk, Overwrite, WorkerStep, WorkerEnabled, IsRun, After;
    var s1 := s.(cpu := Copy(0, 0, 0));
    assert Do(s, Cpu) == s1;
    var s2 := CopyStep(s1);
    PublishRuns(s2);
    RunCons(s1, Cpu, [Cpu] + ([Cpu] + ([Cpu] + [Cpu])));
    RunCons(s, Cpu, [Cpu] + ([Cpu] + ([Cpu] + ([Cpu] + [Cpu]))));
  }

  lemma EndRuns(s: Sys)
    requires s.cpu == Head(CHUNK, 0) && !CanTake(s.arch) && !s.syncmode && !s.poisoned
    ensures IsRun(s, Idler()) && After(s, Idler()) == s.(cpu := Idle)
  {
    hide CanTake, WorkerStep, WorkerEnabled, IsRun, After;
    var t := s.(cpu := Settled(CHUNK));
    assert Do(s, Cpu) == t;
    OneStep(t, Cpu);
    RunCons(s, Cpu, [Cpu]);
  }

  function CallArch(dist: u32, rptr: u32): Arch {
    Arch(Fifo(dist, rptr), CallChunk())
  }

  lemma CallScans()
    ensures Scan(CallChunk()) == Scanned(32, 0, false)
  {
    hide Scan;
    var d := CallChunk();
    assert d[0] == OP_CALL_DL;
    ScanStep(d);
    var nops: seq<u8> := seq(23, _ => OP_NOP);
    assert d[9..] == nops;
    assert ScanCommand(nops) == Whole(23, false);
    ScanStep(nops);
    assert nops[23..] == [];
    ScanStep([]);
  }

  lemma ToPush(g: Gx, ring: seq<u8>)
    ensures var s := Init(CallArch(32, 0), g, ring, false);
            && IsRun(s, [Tick] + [Cpu])
            && After(s, [Tick] + [Cpu]) == s.(scanPos := 32, cpu := Waiting(Check, Space(0, 0, 0)))
  {
    hide CallChunk, Scan, WorkerStep, WorkerEnabled, IsRun, After;
    var s := Init(CallArch(32, 0), g, ring, false);
    var t := s.(cpu := Head(0, 0));
    assert Do(s, Tick) == t;
    CallScans();
    assert ChunkAt(s.arch) == CallChunk();
    assert [] + CallChunk() == CallChunk() && CallChunk()[32..] == [];
    OneStep(t, Cpu);
    RunCons(s, Tick, [Cpu]);
  }

  lemma NothingLeft()
    ensures TakeChunk(CallArch(32, 0)) == CallArch(0, 32) && !CanTake(CallArch(0, 32))
    ensures CanTake(CallArch(32, 0)) && ChunkAt(CallArch(32, 0)) == CallChunk()
  {
    hide CallChunk;
    assert CallChunk()[0..32] == CallChunk();
  }

  /** FINDING.  A tick can return although the finish signal that the
      synchronous consumer has raised by then is still to come: the chunk taken
      from the FIFO calls a list that writes it, and the worker has not run. */
  lemma FinishCanLag(g: Gx, ring: seq<u8>) returns (ls: seq<Label>, s: Sys)
    requires Start(CallArch(32, 0), g, ring) && g.mem == DoneList() && g.bp[BP_MASK] == 0xFF_FFFF
    ensures Reaches(CallArch(32, 0), g, ring, false, ls, s) && s.cpu.Idle?
    ensures s.g.pe == g.pe
    ensures SyncAfter(Machine(CallArch(32, 0), g, []), ls).g.pe == g.pe + [Finish]
  {
    hide IsRun, After, Run, CanTake, ChunkAt, TakeChunk, CallChunk, CallArch, Overwrite, DoneList, SyncAfter, Slice;
    var s0 := Init(CallArch(32, 0), g, ring, false);
    ToPush(g, ring);
    var a := [Tick] + [Cpu];
    var s1 := After(s0, a);
    NothingLeft();
    PushRuns(s1);
    var s2 := After(s1, Pusher());
    EndRuns(s2);
    s := After(s2, Idler());
    RunsCompose(s1, Pusher(), Idler());
    RunsCompose(s0, a, Pusher() + Idler());
    ls := a + (Pusher() + Idler());
    ReachedFacts(CallArch(32, 0), g, ring, false, ls, s);
    SliceWrite(ring, 0, 0, CallChunk());
    CallData(s);
    CallFinishes(g);
    assert Outcome(s).g == Run(s.g, Data(s)).g;
  }

  /** The same from a hardware reset. */
  lemma FinishLagsFromReset(ring: seq<u8>) returns (ls: seq<Label>, s: Sys)
    requires |ring| == RING
    ensures Reaches(CallArch(32, 0), PowerOn(DoneList()), ring, false, ls, s) && s.cpu.Idle?
    ensures s.g.pe == [] && SyncAfter(Machine(CallArch(32, 0), PowerOn(DoneList()), []), ls).g.pe == [Finish]
  {
    hide IsRun, After, CallArch, DoneList, SyncAfter;
    ls, s := FinishCanLag(PowerOn(DoneList()), ring);
  }

  lemma CallData(s: Sys)
    requires Shape(s) && s.buf == [] && s.pulled == 0 && s.produced == CHUNK
    requires Slice(s.ring, 0, CHUNK) == CallChunk()
    ensures Data(s) == CallChunk()
  {
    hide CallChunk, Slice;
    assert [] + CallChunk() == CallChunk();
  }
}
