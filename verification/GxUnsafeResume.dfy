/** Why the resume gate asks for room: with the older gate, which only asked
    that the leftover itself fits the carry, the scanner overflows and the
    pipeline is lost for good. */
module GxUnsafeResume {
  import opened Bytes
  import opened GxDecode
  import opened GxStream
  import opened GxScanner
  import opened CommandFifo
  import opened GxSync
  import opened GxPipeline
  import opened GxFlow
  import opened GxPipelineInv
  import opened GxPipelineLive

  /** A resume, the next tick, and its first look at the FIFO. */
  function ResumeThenTick(a: Arch): seq<Label> {
    [Cpu, Guest(a), Tick, Cpu]
  }

  lemma RunCons(s: Sys, l: Label, ls: seq<Label>)
    requires Enabled(s, l) && IsRun(Do(s, l), ls)
    ensures IsRun(s, [l] + ls) && After(s, [l] + ls) == After(Do(s, l), ls)
  {
    hide Do, Enabled;
    assert ([l] + ls)[1..] == ls;
  }

  lemma OneStep(s: Sys, l: Label)
    requires Enabled(s, l)
    ensures IsRun(s, [l]) && After(s, [l]) == Do(s, l)
  {
    hide Do, Enabled;
    assert [l][1..] == [];
  }

  lemma ResumeThenTickRuns(s: Sys, a: Arch)
    requires s.cpu.Resume? && CanResume(s) && !s.poisoned && !s.failed
    requires a.cp.readEnable && CanTake(a)
    ensures IsRun(s, ResumeThenTick(a))
    ensures After(s, ResumeThenTick(a))
            == HeadStep(s.(arch := a, carry := s.buf, scanPos := s.produced - |s.buf|, syncmode := false, cpu := Head(0, 0)))
  {
    hide CanTake, HeadStep, WorkerStep, WorkerEnabled, IsRun, After;
    var t := ResumeStep(s);
    var u := t.(arch := a);
    var v := TickStart(u);
    OneStep(v, Cpu);
    RunCons(u, Tick, [Cpu]);
    RunCons(t, Guest(a), [Tick] + [Cpu]);
    RunCons(s, Cpu, [Guest(a)] + ([Tick] + [Cpu]));
    assert [Cpu] + ([Guest(a)] + ([Tick] + [Cpu])) == ResumeThenTick(a);
  }

  /** EXACT CONDITION.  A leftover the gate lets through overflows the carry at
      the next chunk if and only if it is longer than 96 bytes.  The gate in
      force refuses exactly those; the unsafe one lets 97 to 128 pass. */
  lemma ResumePoisonsExactly(s: Sys, a: Arch)
    requires s.cpu.Resume? && CanResume(s) && !s.poisoned && !s.failed
    requires a.cp.readEnable && CanTake(a)
    ensures IsRun(s, ResumeThenTick(a))
    ensures After(s, ResumeThenTick(a)).poisoned <==> |s.buf| > CARRY - CHUNK
    ensures !s.unsafe ==> !After(s, ResumeThenTick(a)).poisoned
    ensures s.unsafe ==> |s.buf| <= CARRY
  {
    ResumeThenTickRuns(s, a);
    hide CanTake, Scan, IsRun, After, ChunkAt;
  }

  // ---- a run that gets there ----------------------------------------------

  /** A draw of 256 vertices, of which the FIFO holds the first 128 bytes. */
  function DrawBytes128(): (d: seq<u8>)
    ensures |d| == 128 && d[0] == 0x80 && d[1] == 1 && d[2] == 0
  {
    [0x80, 1, 0] + seq(125, _ => 0)
  }

  function Fifo(dist: u32, rptr: u32): Cp {
    Evaluate(Cp(0, 96, 0x1000, 0, dist, 0, rptr, 0, true, false, false, false, true, false, false, false, false, false))
  }

  function DrawArch(dist: u32, rptr: u32): Arch {
    Arch(Fifo(dist, rptr), DrawBytes128())
  }

  /** Any front part of the draw that holds its header is a partial command. */
  lemma DrawIsPartial(g: Gx, d: seq<u8>)
    requires VertexSize(g.cp, 0) > 0
    requires 3 <= |d| <= 128 && d[0] == 0x80 && d[1] == 1 && d[2] == 0
    ensures Run(g, d) == Ran(g, 0) && Leftover(g, d) == d
  {
    hide VertexSize, Run, Leftover;
    assert Be16(d[1..]) == 256;
    assert d[0] % 8 == 0;
    AtLeastOne(VertexSize(g.cp, 0));
    assert CommandSize(g.cp, d) == 0;
    PartialFacts(g, d, 0);
  }

  lemma AtLeastOne(v: nat)
    requires v > 0
    ensures DrawBytes(256, v) >= 256
  {
  }

  lemma SyncTurn(s: Sys, k: nat)
    requires k < 4 && VertexSize(s.g.cp, 0) > 0
    requires s.arch == DrawArch(128 - 32 * k, 32 * k) && s.buf == DrawBytes128()[..32 * k] && s.cpu == Sync(32 * k)
    ensures CpuStep(s) == s.(arch := if k < 3 then DrawArch(96 - 32 * k, 32 * k + 32) else DrawArch(0, 0),
                             buf := DrawBytes128()[..32 * k + 32], cpu := Sync(32 * k + 32))
  {
    hide Run, Leftover, VertexSize, DrawBytes128, CanTake, ChunkAt, TakeChunk, DrawArch;
    DrawChunk(k);
    var chunk := DrawBytes128()[32 * k..32 * k + 32];
    assert s.buf + chunk == DrawBytes128()[..32 * k + 32];
    DrawIsPartial(s.g, s.buf + chunk);
  }

  lemma DrawChunk(k: nat)
    requires k < 4
    ensures var a := DrawArch(128 - 32 * k, 32 * k);
            && CanTake(a) && ChunkAt(a) == DrawBytes128()[32 * k..32 * k + 32]
            && TakeChunk(a) == if k < 3 then DrawArch(96 - 32 * k, 32 * k + 32) else DrawArch(0, 0)
  {
    hide DrawBytes128;
  }

  lemma ToSync(g: Gx, ring: seq<u8>)
    ensures var s := Init(DrawArch(128, 0), g, ring, true);
            var ls := [Tick] + ([Cpu] + ([Cpu] + [Cpu]));
            && IsRun(s, ls)
            && After(s, ls) == s.(carry := DrawBytes128()[..32], syncmode := true, cpu := Sync(0))
  {
    hide WorkerStep, DrawBytes128, IsRun, After;
    var s := Init(DrawArch(128, 0), g, ring, true);
    var t := Do(s, Tick);
    var chunk := ChunkAt(s.arch);
    assert [] + chunk == chunk;
    assert Scan(chunk) == Scanned(0, 0, true);
    assert chunk[0..] == chunk == DrawBytes128()[..32];
    var u := CpuStep(t);
    assert u == t.(carry := chunk, cpu := Waiting(Check, Handoff(0, 0)));
    var v := CpuStep(u);
    OneStep(v, Cpu);
    RunCons(u, Cpu, [Cpu]);
    RunCons(t, Cpu, [Cpu] + [Cpu]);
    RunCons(s, Tick, [Cpu] + ([Cpu] + [Cpu]));
  }

  /** Four chunks through the synchronous loop, then its end. */
  lemma {:induction false} DrainDraw(s: Sys, k: nat) returns (ls: seq<Label>)
    requires k <= 4 && VertexSize(s.g.cp, 0) > 0 && s.syncmode && !s.poisoned
    requires s.arch == DrawArch(128 - 32 * k, if k < 4 then 32 * k else 0)
    requires s.buf == DrawBytes128()[..32 * k] && s.cpu == Sync(32 * k)
    ensures IsRun(s, ls)
    ensures After(s, ls) == s.(arch := DrawArch(0, 0), buf := DrawBytes128(), cpu := Resume)
    decreases 4 - k
  {
    hide IsRun, After, SyncChunk, DrawBytes128, VertexSize, WorkerStep;
    if k == 4 {
      assert DrawBytes128()[..128] == DrawBytes128();
      OneStep(s, Cpu);
      ls := [Cpu];
    } else {
      SyncTurn(s, k);
      var rest := DrainDraw(CpuStep(s), k + 1);
      RunCons(s, Cpu, rest);
      ls := [Cpu] + rest;
    }
  }

  /** FINDING.  With the unsafe gate a draw whose first 128 bytes are staged
      when a tick ends poisons the scanner at the next chunk, whatever the
      decoder holds otherwise; with the gate in force no run does. */
  lemma UnsafeGatePoisons(g: Gx, ring: seq<u8>) returns (ls: seq<Label>)
    requires g.depth == 0 && |ring| == RING && VertexSize(g.cp, 0) > 0
    ensures IsRun(Init(DrawArch(128, 0), g, ring, true), ls)
    ensures After(Init(DrawArch(128, 0), g, ring, true), ls).poisoned
  {
    hide IsRun, After, CanTake, VertexSize, HeadStep, DrawBytes128;
    var s := Init(DrawArch(128, 0), g, ring, true);
    var a := [Tick] + ([Cpu] + ([Cpu] + [Cpu]));
    ToSync(g, ring);
    var t := After(s, a);
    assert DrawBytes128()[..0] == [];
    var b := DrainDraw(t, 0);
    var c := ResumeThenTick(DrawArch(32, 0));
    MoreToTake();
    ResumePoisonsExactly(After(t, b), DrawArch(32, 0));
    RunsCompose(t, b, c);
    RunsCompose(s, a, b + c);
    ls := a + (b + c);
  }

  lemma MoreToTake()
    ensures CanTake(DrawArch(32, 0)) && DrawArch(32, 0).cp.readEnable
  {
  }
}
