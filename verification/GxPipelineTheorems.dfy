/** What the pipeline guarantees, over every FIFO byte stream, every behaviour
    of the guest between ticks and every interleaving of the two threads. */
module GxPipelineTheorems {
  import opened Bytes
  import opened GxDecode
  import opened GxStream
  import opened GxScanner
  import opened CommandFifo
  import opened GxSync
  import opened GxPipeline
  import opened GxFlow
  import opened GxPipelineInv
  import opened GxPipelineSteps
  import opened GxPipelineRefines

  ghost predicate Start(arch: Arch, g: Gx, ring: seq<u8>) {
    |ring| == RING && g.depth == 0
  }

  /** A state that some run reaches from the initial state. */
  ghost predicate Reaches(arch: Arch, g: Gx, ring: seq<u8>, unsafe: bool, ls: seq<Label>, s: Sys) {
    && Start(arch, g, ring)
    && IsRun(Init(arch, g, ring, unsafe), ls)
    && s == After(Init(arch, g, ring, unsafe), ls)
  }

  lemma StartOutcome(arch: Arch, g: Gx, ring: seq<u8>, unsafe: bool)
    requires Start(arch, g, ring)
    ensures Inv(Init(arch, g, ring, unsafe))
    ensures Outcome(Init(arch, g, ring, unsafe)) == Machine(arch, g, [])
  {
    InitInv(arch, g, ring, unsafe);
    var s := Init(arch, g, ring, unsafe);
    hide Run, Leftover, Slice, CommandSize, Inv, CanTake, TakeChunk;
    QuietData(s);
    EmptyIsPartial(g);
    PartialFacts(g, [], 0);
  }

  lemma EmptyIsPartial(g: Gx)
    ensures CommandSize(g.cp, []) == 0
  {
  }

  lemma ReachedFacts(arch: Arch, g: Gx, ring: seq<u8>, unsafe: bool, ls: seq<Label>, s: Sys)
    requires Reaches(arch, g, ring, unsafe, ls, s)
    ensures Inv(s) && Outcome(s) == SyncAfter(Machine(arch, g, []), ls)
  {
    hide Inv, Outcome, IsRun, After, SyncAfter;
    StartOutcome(arch, g, ring, unsafe);
    RunRefines(Init(arch, g, ring, unsafe), ls);
  }

  lemma ExtendsTrans(a: Gx, b: Gx, c: Gx)
    requires Extends(b, a) && Extends(c, b)
    ensures Extends(c, a)
  {
  }

  /** SAFETY.  At every moment of every run, what the pipeline has executed is a
      prefix of what the synchronous consumer has executed by the end of the
      tick: top-level commands, pixel-engine events and renderer work alike. */
  lemma ExecutedIsPrefix(arch: Arch, g: Gx, ring: seq<u8>, unsafe: bool, ls: seq<Label>, s: Sys)
    requires Reaches(arch, g, ring, unsafe, ls, s)
    ensures Extends(SyncAfter(Machine(arch, g, []), ls).g, s.g)
  {
    ReachedFacts(arch, g, ring, unsafe, ls, s);
    hide Run, Leftover, Data, CanTake, TakeChunk, SyncLoop, Extends, Guarded, Flow, Mode, Carried, FencesAhead, Published, Wakes;
    RunExtends(s.g, Data(s));
    SyncLoopExtends(Image(s), Spent(s.cpu));
    if InTick(s.cpu) {
      ExtendsTrans(s.g, Image(s).g, Outcome(s).g);
    }
  }

  /** Between ticks the guest sees exactly the synchronous consumer's FIFO: read
      pointer, distance, watermark flags, interrupt line and RAM. */
  lemma GuestSeesSync(arch: Arch, g: Gx, ring: seq<u8>, unsafe: bool, ls: seq<Label>, s: Sys)
    requires Reaches(arch, g, ring, unsafe, ls, s) && s.cpu.Idle?
    ensures s.arch == SyncAfter(Machine(arch, g, []), ls).arch
  {
    ReachedFacts(arch, g, ring, unsafe, ls, s);
    hide Run, Leftover, Data, SyncLoop, Guarded, Flow, Mode, Carried, FencesAhead, Published, Wakes;
  }

  lemma DrainedIsQuiet(s: Sys)
    requires Inv(s) && s.done == s.produced
    ensures Quiet(s) && CommandSize(s.g.cp, s.buf) == 0
  {
    hide CommandSize, Guarded, Mode, Carried, FencesAhead, Published, Wakes;
  }

  /** Once the worker has processed everything published, the decoder itself and
      the staging buffer are the synchronous ones. */
  lemma DrainedEqualsSync(arch: Arch, g: Gx, ring: seq<u8>, unsafe: bool, ls: seq<Label>, s: Sys)
    requires Reaches(arch, g, ring, unsafe, ls, s) && s.cpu.Idle? && s.done == s.produced
    ensures SyncAfter(Machine(arch, g, []), ls) == Machine(s.arch, s.g, s.buf)
  {
    ReachedFacts(arch, g, ring, unsafe, ls, s);
    DrainedIsQuiet(s);
    hide Run, Leftover, Data, SyncLoop, Guarded, Flow, Mode, Carried, FencesAhead, Published, Wakes, Image, CommandSize;
    QuietImage(s);
  }

  /** A join (before a fifo reset, a memory dump or a screenshot) does drain. */
  lemma JoinDrains(s: Sys)
    requires Inv(s) && s.cpu == Waiting(Check, Join) && Served(s, Join)
    ensures WaitStep(s).cpu.Idle? && WaitStep(s).done == WaitStep(s).produced && Quiet(WaitStep(s))
  {
    hide CommandSize, Guarded, Mode, Carried, FencesAhead, Published, CpuSleeps, WorkerSleeps;
  }

  lemma IdleHasNoFence(s: Sys)
    requires Inv(s) && s.cpu.Idle?
    ensures NextFences(s) == {}
  {
    hide NextFences, Stream, Rest, Guarded, Mode, Carried, Published, Wakes, Flow;
    assert forall f :: f in NextFences(s) ==> 0 < f <= 0;
  }

  lemma IdleSizable(s: Sys)
    requires Inv(s) && s.cpu.Idle?
    ensures Stream(s) == Data(s)
    ensures Sizable(Data(s)) || (Data(s) == s.buf && CommandSize(s.g.cp, s.buf) == 0)
  {
    hide Slice, CommandSize, Sizable, NextFences, Rest, Guarded, Carried, FencesAhead, Published, Wakes;
    NothingAhead(s);
    if !Sizable(Data(s)) {
      QuietData(s);
    }
  }

  lemma IdleFences(s: Sys)
    requires Inv(s) && s.cpu.Idle?
    ensures Fences(Run(s.g, Data(s)).g.log) == Fences(s.g.log)
  {
    IdleHasNoFence(s);
    IdleSizable(s);
    hide Run, FenceEnds, Data, Scan, CommandSize, Fences, Guarded, Mode, Carried, FencesAhead, Published, Wakes;
    if Sizable(Data(s)) {
      NoFenceNoWrite(s.g, Data(s), Pos(s));
    } else {
      PartialFacts(s.g, s.buf, 0);
    }
  }

  /** FENCES.  When a tick returns, every top-level write to a pixel-engine
      register in the bytes taken from the FIFO has been executed: the pipeline
      has performed exactly the ones the synchronous consumer has. */
  lemma FencesLandInTheirTick(arch: Arch, g: Gx, ring: seq<u8>, unsafe: bool, ls: seq<Label>, s: Sys)
    requires Reaches(arch, g, ring, unsafe, ls, s) && s.cpu.Idle?
    ensures Fences(s.g.log) == Fences(SyncAfter(Machine(arch, g, []), ls).g.log)
  {
    ReachedFacts(arch, g, ring, unsafe, ls, s);
    IdleFences(s);
    hide Run, Leftover, Data, SyncLoop, Fences, Guarded, Flow, Mode, Carried, FencesAhead, Published, Wakes, CanTake, TakeChunk;
  }

  /** A fence offset is never 0, so 0 can stand for "none", and it is never at or
      below what is published as retired while its command is still to be
      executed, however stale that is; the fence the tick will wait for covers
      it. */
  lemma FencesAreAwaited(arch: Arch, g: Gx, ring: seq<u8>, unsafe: bool, ls: seq<Label>, s: Sys)
    requires Reaches(arch, g, ring, unsafe, ls, s)
    ensures Shape(s)
    ensures forall f :: f in NextFences(s) ==> f > 0 && s.retired < f <= CpuFence(s.cpu)
    ensures s.cpu.Waiting? && s.cpu.goal.Fenced? && Served(s, s.cpu.goal) ==> NextFences(s) == {}
  {
    ReachedFacts(arch, g, ring, unsafe, ls, s);
    hide IsRun, After, Outcome, NextFences, Stream, Rest, Guarded, Flow, Mode, Carried, Published, Wakes;
    if s.cpu.Waiting? && s.cpu.goal.Fenced? && Served(s, s.cpu.goal) {
      NoneBeyond(NextFences(s), s.retired, CpuFence(s.cpu));
    }
  }

  lemma NoneBeyond(offsets: set<int>, from: int, to: int)
    requires (forall f :: f in offsets ==> from < f <= to) && to <= from
    ensures offsets == {}
  {
    assert forall f :: f !in offsets;
  }

  /** OWNERSHIP.  The CPU touches the decoder and the staging buffer only in the
      synchronous loop and at the resume, and then the worker is idle with
      everything published processed. */
  lemma CpuOwnsDecoderAlone(arch: Arch, g: Gx, ring: seq<u8>, unsafe: bool, ls: seq<Label>, s: Sys)
    requires Reaches(arch, g, ring, unsafe, ls, s)
    ensures s.cpu.Sync? || s.cpu.Resume? ==> s.pulled == s.produced == s.done && !Busy(s.worker)
  {
    ReachedFacts(arch, g, ring, unsafe, ls, s);
    hide Stream, Sizable, Guarded, Flow, Carried, FencesAhead, Published, Wakes, Outcome;
  }

  /** The scanner mirrors the decoder.  Whenever the worker has caught up outside
      synchronous mode, the carry is the staging leftover byte for byte and its
      stream offset is `produced` minus its length. */
  lemma CarryIsLeftover(arch: Arch, g: Gx, ring: seq<u8>, unsafe: bool, ls: seq<Label>, s: Sys)
    requires Reaches(arch, g, ring, unsafe, ls, s)
    requires (s.cpu.Idle? || s.cpu.Head?) && !s.syncmode && s.done == s.produced
    ensures s.carry == s.buf && s.scanPos == s.produced - |s.buf|
  {
    ReachedFacts(arch, g, ring, unsafe, ls, s);
    DrainedIsQuiet(s);
    hide Stream, Rest, NextFences, Slice, Sizable, Guarded, Mode, FencesAhead, Published, Wakes, Outcome, CommandSize;
    QuietBytes(s);
  }

  lemma WaitKeepsGate(s: Sys)
    requires s.cpu.Waiting? && !s.cpu.stage.Asleep?
    ensures WaitStep(s).unsafe == s.unsafe
  {
    hide Served, Watched;
  }

  lemma LoopKeepsGate(s: Sys)
    ensures s.cpu.Head? ==> HeadStep(s).unsafe == s.unsafe
    ensures s.cpu.Sync? ==> SyncStep(s).unsafe == s.unsafe
    ensures s.cpu.Bump? || s.cpu.WakeCheck? || s.cpu.WakeCall? ==> HandshakeStep(s).unsafe == s.unsafe
  {
    hide CanTake, ChunkAt, Scan, SyncChunk, AfterLoop;
  }

  lemma CpuKeepsGate(s: Sys)
    requires CpuEnabled(s)
    ensures CpuStep(s).unsafe == s.unsafe
  {
    hide CopyOk, Overwrite, ChunkAt, TakeChunk, HeadStep, WaitStep, SyncStep, HandshakeStep, CanTake;
    LoopKeepsGate(s);
    if s.cpu.Waiting? {
      WaitKeepsGate(s);
    }
  }

  lemma WorkerKeepsGate(s: Sys)
    requires WorkerEnabled(s)
    ensures WorkerStep(s).unsafe == s.unsafe
  {
    hide ParkStep, PullStep, ReportStep, Run, Leftover, PullOk;
    ParkAndReportKeepGate(s);
  }

  lemma ParkAndReportKeepGate(s: Sys)
    ensures Idling(s.worker) ==> ParkStep(s).unsafe == s.unsafe
    ensures PullOk(s) ==> PullStep(s).unsafe == s.unsafe
    ensures s.worker.PubRetired? || s.worker.PubDone? || s.worker.Notify? || s.worker.WakeCpu? ==>
              ReportStep(s).unsafe == s.unsafe
  {
    hide ParkNext, PullSize, Woken;
  }

  lemma StepKeepsGate(s: Sys, l: Label)
    requires Enabled(s, l)
    ensures Do(s, l).unsafe == s.unsafe
  {
    hide CpuStep, WorkerStep, CpuEnabled, WorkerEnabled;
    match l
    case Cpu => CpuKeepsGate(s);
    case Work => WorkerKeepsGate(s);
    case Guest(_) =>
    case Tick =>
    case JoinCall =>
    case Timeout =>
    case GiveUp =>
    case Spurious =>
  }

  lemma {:induction false} RunKeepsGate(s: Sys, ls: seq<Label>)
    requires IsRun(s, ls)
    ensures After(s, ls).unsafe == s.unsafe
    decreases |ls|
  {
    hide Do, Enabled;
    if ls != [] {
      StepKeepsGate(s, ls[0]);
      RunKeepsGate(Do(s, ls[0]), ls[1..]);
    }
  }

  /** Neither thread ever fails, and with the resume gate in force the scanner
      never overflows: the permanent fallback is unreachable, and the worker
      never finds the staging buffer full. */
  lemma NeverFails(arch: Arch, g: Gx, ring: seq<u8>, unsafe: bool, ls: seq<Label>, s: Sys)
    requires Reaches(arch, g, ring, unsafe, ls, s)
    ensures !s.failed && !s.worker.Dead? && !s.cpu.Aborted?
    ensures !unsafe ==> !s.poisoned
    ensures !unsafe && s.cpu.Head? ==> |s.carry| + CHUNK <= CARRY
    ensures s.worker.Pull? ==> |s.buf| <= 68
  {
    ReachedFacts(arch, g, ring, unsafe, ls, s);
    RunKeepsGate(Init(arch, g, ring, unsafe), ls);
    if s.worker.Pull? {
      StagedIsShort(s);
    }
    hide IsRun, After, Stream, Rest, Sizable, Guarded, Flow, Published, Outcome, WorkerSleeps, CpuSleeps;
  }

  /** The overflow is a matter of the decoder's leftover alone: at the loop head
      the next chunk poisons the scanner for good exactly when executing what
      has been published leaves more than 96 bytes of a partial command. */
  lemma OverflowExactly(s: Sys)
    requires Inv(s) && s.cpu.Head? && s.cpu.drained < BUDGET && CanTake(s.arch)
    ensures HeadStep(s).poisoned <==> |Leftover(s.g, Data(s))| > CARRY - CHUNK
  {
    hide Slice, Sizable, Guarded, Flow, FencesAhead, Published, Wakes, CanTake, ChunkAt, Scan, Leftover;
    assert Stream(s) == Data(s);
  }
}
