/** The pipeline is indistinguishable from the synchronous consumer. */
module GxPipelineRefines {
  import opened Bytes
  import opened GxDecode
  import opened GxStream
  import opened GxScanner
  import opened CommandFifo
  import opened GxSync
  import opened GxPipeline
  import opened GxFlow
  import opened GxPipelineInv
  import opened GxPipelineSteps

  /** The synchronous machine the state stands for: what is published executed. */
  ghost function Image(s: Sys): Machine
    requires Shape(s)
  {
    Machine(if Pushed(s.cpu) && CanTake(s.arch) then TakeChunk(s.arch) else s.arch,
            Run(s.g, Data(s)).g, Leftover(s.g, Data(s)))
  }

  function Spent(cpu: Cpu): nat {
    if Pushed(cpu) then Drained(cpu) + CHUNK else Drained(cpu)
  }

  predicate InTick(cpu: Cpu) {
    !cpu.Idle? && !cpu.Resume? && !cpu.Aborted? && !(cpu.Waiting? && cpu.goal.Join?)
  }

  /** Where the synchronous machine ends up: the image, after the rest of the
      tick that is under way. */
  ghost function Outcome(s: Sys): Machine
    requires Shape(s)
  {
    if InTick(s.cpu) then SyncLoop(Image(s), Spent(s.cpu)) else Image(s)
  }

  predicate SameWork(s: Sys, t: Sys) {
    && t.g == s.g && t.buf == s.buf && t.ring == s.ring && t.arch == s.arch
    && t.produced == s.produced && t.pulled == s.pulled
    && SamePhase(t.cpu, s.cpu)
  }

  lemma WorkFrame(s: Sys, t: Sys)
    requires Shape(s) && SameWork(s, t)
    ensures Shape(t) && Outcome(t) == Outcome(s)
  {
    hide Slice, Run, Leftover, SyncLoop, CanTake, TakeChunk;
  }

  /** Two program points of the CPU at the same point of the tick. */
  predicate SamePhase(a: Cpu, b: Cpu) {
    Pushed(a) == Pushed(b) && Spent(a) == Spent(b) && InTick(a) == InTick(b)
  }

  lemma ReachedRefines(s: Sys, goal: Goal)
    requires Shape(s) && s.cpu == Waiting(Check, goal)
    ensures Shape(Reached(s, goal)) && Outcome(Reached(s, goal)) == Outcome(s)
  {
    hide Shape, Outcome;
    WorkFrame(s, Reached(s, goal));
  }

  lemma StagePhase(a: Stage, b: Stage, goal: Goal)
    ensures SamePhase(Waiting(a, goal), Waiting(b, goal))
  {
  }

  lemma StageRefines(s: Sys, waiting: bool, stage: Stage)
    requires Shape(s) && s.cpu.Waiting?
    ensures var t := s.(waiting := waiting, cpu := Waiting(stage, s.cpu.goal));
            Shape(t) && Outcome(t) == Outcome(s)
  {
    StagePhase(stage, s.cpu.stage, s.cpu.goal);
    hide Shape, Outcome, SamePhase;
    WorkFrame(s, s.(waiting := waiting, cpu := Waiting(stage, s.cpu.goal)));
  }

  lemma WaitRefines(s: Sys)
    requires Shape(s) && s.cpu.Waiting? && !s.cpu.stage.Asleep? && !s.failed
    ensures Shape(WaitStep(s)) && Outcome(WaitStep(s)) == Outcome(s)
  {
    hide Shape, Outcome, Served, Watched, Reached;
    var goal := s.cpu.goal;
    match s.cpu.stage
    case Check =>
      if Served(s, goal) {
        ReachedRefines(s, goal);
      } else {
        StageRefines(s, s.waiting, Arm(Watched(s, goal)));
      }
    case Arm(v) => StageRefines(s, true, Compare(v));
    case Compare(v) => StageRefines(s, s.waiting, if Watched(s, goal) == v then Asleep(v) else Disarm);
    case Disarm => StageRefines(s, false, Check);
  }

  lemma HeadPhase(d: nat, f: int, e: int)
    ensures SamePhase(AfterLoop(d, f), Head(d, f))
    ensures SamePhase(Waiting(Check, Space(d, f, e)), Head(d, f))
    ensures SamePhase(Waiting(Check, Handoff(d, f)), Head(d, f))
  {
  }

  lemma ScannedRefines(s: Sys, carry: seq<u8>, scanPos: int, poisoned: bool, goal: Goal)
    requires Shape(s) && s.cpu.Head?
    requires goal.Space? || goal.Handoff?
    requires goal.drained == s.cpu.drained && goal.fence == s.cpu.fence
    ensures var t := s.(carry := carry, scanPos := scanPos, poisoned := poisoned, cpu := Waiting(Check, goal));
            Shape(t) && Outcome(t) == Outcome(s)
  {
    hide Shape, Outcome;
    HeadPhase(s.cpu.drained, s.cpu.fence, if goal.Space? then goal.end else 0);
    WorkFrame(s, s.(carry := carry, scanPos := scanPos, poisoned := poisoned, cpu := Waiting(Check, goal)));
  }

  lemma LoopEndRefines(s: Sys)
    requires Shape(s) && s.cpu.Head?
    ensures var t := s.(cpu := AfterLoop(s.cpu.drained, s.cpu.fence)); Shape(t) && Outcome(t) == Outcome(s)
  {
    hide Shape, Outcome;
    WorkFrame(s, s.(cpu := AfterLoop(s.cpu.drained, s.cpu.fence)));
  }

  lemma HeadRefines(s: Sys)
    requires Shape(s) && s.cpu.Head?
    ensures Shape(HeadStep(s)) && Outcome(HeadStep(s)) == Outcome(s)
  {
    hide Shape, Outcome, AfterLoop, CanTake, ChunkAt, Scan;
    var d, f := s.cpu.drained, s.cpu.fence;
    if !(d < BUDGET && CanTake(s.arch)) {
      LoopEndRefines(s);
    } else if |s.carry| + CHUNK > CARRY {
      ScannedRefines(s, s.carry, s.scanPos, true, Handoff(d, f));
    } else {
      var t := HeadStep(s);
      ScannedRefines(s, t.carry, t.scanPos, s.poisoned, t.cpu.goal);
    }
  }

  lemma CopyRefines(s: Sys)
    requires Inv(s) && s.cpu.Copy? && CopyOk(s)
    ensures Shape(CopyStep(s)) && Outcome(CopyStep(s)) == Outcome(s)
  {
    hide Overwrite, Slice, CanTake, ChunkAt, Run, Leftover, SyncLoop, TakeChunk;
    SliceWrite(s.ring, s.pulled, s.produced, ChunkAt(s.arch));
  }

  lemma PublishSizable(s: Sys)
    requires Inv(s) && s.cpu.Publish?
    ensures |Leftover(s.g, Data(s))| <= 68
  {
    hide Slice, CanTake, ChunkAt, Leftover, Scan, Data, CommandSize, Guarded, Carried, FencesAhead, Published, Wakes;
    if Sizable(Stream(s)) {
      SizablePrefix(Data(s), Ahead(s));
      SizableLeftover(s.g, Data(s));
    } else {
      QuietData(s);
      GuardedHere(s);
    }
  }

  lemma GuardedHere(s: Sys)
    requires Shape(s) && Guarded(s) && s.cpu.Publish?
    ensures CanTake(s.arch) && Ahead(s) == ChunkAt(s.arch) && |Ahead(s)| == CHUNK
    ensures s.cpu.drained < BUDGET
  {
  }

  lemma PublishData(s: Sys)
    requires Shape(s) && Guarded(s) && s.cpu.Publish?
    ensures CanTake(s.arch) && Shape(PublishStep(s))
    ensures Data(PublishStep(s)) == Data(s) + ChunkAt(s.arch)
  {
    hide Slice, CanTake, ChunkAt;
    SliceSplit(s.ring, s.pulled, s.produced - s.pulled, CHUNK);
  }

  /** Publishing a chunk is the synchronous machine's execution of it. */
  lemma PublishRefines(s: Sys)
    requires Inv(s) && s.cpu.Publish?
    ensures Shape(PublishStep(s)) && Outcome(PublishStep(s)) == Outcome(s)
  {
    hide Slice, CanTake, ChunkAt, Run, Leftover, TakeChunk, Data, Flow, Mode, Carried, FencesAhead, Published, Wakes, Guarded, Shape;
    PublishSizable(s);
    GuardedHere(s);
    PublishData(s);
    LeftoverInPieces(s.g, Data(s), ChunkAt(s.arch));
    assert SyncGuard(Image(s), s.cpu.drained);
    assert SyncChunk(Image(s)) == Image(PublishStep(s));
  }

  lemma HandshakeRefines(s: Sys)
    requires Shape(s) && (s.cpu.Bump? || s.cpu.WakeCheck? || s.cpu.WakeCall?)
    ensures Shape(HandshakeStep(s)) && Outcome(HandshakeStep(s)) == Outcome(s)
  {
    hide Shape, Outcome;
    WorkFrame(s, HandshakeStep(s));
  }

  lemma AccountRefines(s: Sys)
    requires Inv(s) && s.cpu.Account?
    ensures Shape(AccountStep(s)) && Outcome(AccountStep(s)) == Outcome(s)
  {
    hide Slice, Run, Leftover, SyncLoop, CanTake, TakeChunk, Flow, Mode, Carried, FencesAhead, Published, Wakes;
  }

  lemma SettleRefines(s: Sys)
    requires Inv(s) && s.cpu.Settled?
    ensures Shape(SettleStep(s)) && Outcome(SettleStep(s)) == Outcome(s)
  {
    hide Slice, Run, Leftover, CanTake, ChunkAt, TakeChunk, Flow, Carried, FencesAhead, Published, Wakes, SyncChunk;
    assert Data(SettleStep(s)) == Data(s);
  }

  lemma QuietImage(s: Sys)
    requires Shape(s) && s.pulled == s.produced && CommandSize(s.g.cp, s.buf) == 0 && !Pushed(s.cpu)
    ensures Image(s) == Machine(s.arch, s.g, s.buf)
  {
    hide Slice, Run, Leftover, CanTake, TakeChunk, CommandSize;
    QuietData(s);
    PartialFacts(s.g, s.buf, 0);
  }

  lemma SyncLoopStep(m: Machine, d: nat)
    ensures SyncLoop(m, d) == if SyncGuard(m, d) then SyncLoop(SyncChunk(m), d + CHUNK) else m
  {
    hide SyncChunk;
  }

  lemma SyncOutcome(s: Sys)
    requires Shape(s) && Image(s) == Machine(s.arch, s.g, s.buf)
    ensures s.cpu.Sync? ==> Outcome(s) == SyncLoop(Machine(s.arch, s.g, s.buf), s.cpu.drained)
    ensures s.cpu.Resume? || s.cpu.Idle? ==> Outcome(s) == Machine(s.arch, s.g, s.buf)
  {
    hide Shape, Image, SyncLoop;
  }

  lemma SyncRefines(s: Sys)
    requires Inv(s) && s.cpu.Sync?
    ensures Shape(SyncStep(s)) && Outcome(SyncStep(s)) == Outcome(s)
  {
    hide Shape, Guarded, Flow, Mode, Carried, FencesAhead, Published, Wakes, Image, SyncLoop, Outcome, SyncStep;
    SyncKeepsInv(s);
    SyncImages(s);
    SyncOutcome(s);
    SyncOutcome(SyncStep(s));
    SyncTurn(s);
  }

  lemma SyncTurn(s: Sys)
    requires s.cpu.Sync?
    ensures var t := SyncStep(s);
            var m, n := Machine(s.arch, s.g, s.buf), Machine(t.arch, t.g, t.buf);
            && (t.cpu.Sync? ==> SyncLoop(m, s.cpu.drained) == SyncLoop(n, t.cpu.drained))
            && (!t.cpu.Sync? ==> (t.cpu.Resume? || t.cpu.Idle?) && SyncLoop(m, s.cpu.drained) == n)
  {
    hide SyncChunk, SyncGuard, SyncLoop;
    SyncLoopStep(Machine(s.arch, s.g, s.buf), s.cpu.drained);
  }

  lemma SyncImages(s: Sys)
    requires Inv(s) && s.cpu.Sync? && Inv(SyncStep(s))
    ensures Image(s) == Machine(s.arch, s.g, s.buf)
    ensures var t := SyncStep(s); Image(t) == Machine(t.arch, t.g, t.buf)
  {
    hide Slice, Run, Leftover, CanTake, ChunkAt, TakeChunk, Carried, FencesAhead, Published, Wakes, Guarded, CommandSize, Sizable, Data, Stream, Image;
    QuietImage(s);
    QuietImage(SyncStep(s));
  }

  lemma ResumePhase()
    ensures SamePhase(Idle, Resume)
  {
  }

  lemma ResumeRefines(s: Sys)
    requires Shape(s) && s.cpu.Resume?
    ensures Shape(ResumeStep(s)) && Outcome(ResumeStep(s)) == Outcome(s)
  {
    hide Shape, Outcome, CanResume, SamePhase;
    ResumePhase();
    WorkFrame(s, ResumeStep(s));
  }

  lemma TickRefines(s: Sys)
    requires Inv(s) && s.cpu.Idle?
    ensures Shape(TickStart(s)) && Outcome(TickStart(s)) == SyncTick(Outcome(s))
  {
    hide Slice, Run, Leftover, SyncLoop, CanTake, TakeChunk, Flow, Mode, Carried, FencesAhead, Published, Guarded, WorkerSleeps, CpuSleeps;
    assert Data(TickStart(s)) == Data(s);
  }

  lemma PullRefines(s: Sys)
    requires Inv(s) && s.worker.Pull?
    ensures PullOk(s) && Shape(PullStep(s)) && Outcome(PullStep(s)) == Outcome(s)
  {
    PullFits(s);
    hide Slice, Run, Leftover, SyncLoop, CanTake, TakeChunk, Guarded, Flow, Mode, Carried, FencesAhead, Published, Wakes, Data, PullSize;
    PulledData(s);
  }

  /** Decoding what is staged is the synchronous machine standing still. */
  lemma DecodeRefines(s: Sys)
    requires Shape(s) && s.worker.Decode?
    ensures |Leftover(s.g, s.buf)| <= |s.buf|
    ensures Shape(DecodeStep(s)) && Outcome(DecodeStep(s)) == Outcome(s)
  {
    hide Slice, Run, SyncLoop, CanTake, TakeChunk;
    LeftoverInPieces(s.g, s.buf, Slice(s.ring, s.pulled, s.produced - s.pulled));
  }

  lemma ReportRefines(s: Sys)
    requires Shape(s)
    requires s.worker.PubRetired? || s.worker.PubDone? || s.worker.Notify? || s.worker.WakeCpu?
    ensures Shape(ReportStep(s)) && Outcome(ReportStep(s)) == Outcome(s)
  {
    hide Shape, Outcome;
    WorkFrame(s, ReportStep(s));
  }

  lemma RestRefines(s: Sys, parked: bool, w: Worker)
    requires Shape(s)
    ensures var t := s.(parked := parked, worker := w); Shape(t) && Outcome(t) == Outcome(s)
  {
    hide Shape, Outcome;
    WorkFrame(s, s.(parked := parked, worker := w));
  }

  lemma ParkRefines(s: Sys)
    requires Shape(s) && Idling(s.worker)
    ensures Shape(ParkStep(s)) && Outcome(ParkStep(s)) == Outcome(s)
  {
    hide Shape, Outcome, ParkNext;
    RestRefines(s, ParkStep(s).parked, ParkStep(s).worker);
  }

  lemma TopRefines(s: Sys)
    requires Shape(s)
    ensures Shape(TopStep(s)) && Outcome(TopStep(s)) == Outcome(s)
  {
    hide Shape, Outcome;
    RestRefines(s, s.parked, TopStep(s).worker);
  }

  // ---- all steps, and all runs --------------------------------------------

  lemma CpuRefines(s: Sys)
    requires Inv(s) && CpuEnabled(s)
    ensures Shape(CpuStep(s)) && Outcome(CpuStep(s)) == Outcome(s)
  {
    hide Outcome, Shape, Guarded, Flow, Mode, Carried, FencesAhead, Published, WorkerSleeps, CpuSleeps,
      HeadStep, WaitStep, CopyStep, PublishStep, HandshakeStep, AccountStep, SettleStep, SyncStep, ResumeStep, CopyOk;
    match s.cpu
    case Head(_, _) => HeadRefines(s);
    case Waiting(_, _) => WaitRefines(s);
    case Copy(_, _, _) => CopyRefines(s);
    case Publish(_, _, _) => PublishRefines(s);
    case Bump(_, _, _) => HandshakeRefines(s);
    case WakeCheck(_, _, _) => HandshakeRefines(s);
    case WakeCall(_, _, _) => HandshakeRefines(s);
    case Account(_, _, _) => AccountRefines(s);
    case Settled(_) => SettleRefines(s);
    case Sync(_) => SyncRefines(s);
    case Resume => ResumeRefines(s);
  }

  lemma WorkerRefines(s: Sys)
    requires Inv(s) && WorkerEnabled(s)
    ensures Shape(WorkerStep(s)) && Outcome(WorkerStep(s)) == Outcome(s)
  {
    hide Outcome, Shape, Guarded, Flow, Mode, Carried, FencesAhead, Published, Wakes,
      PullStep, DecodeStep, ReportStep, ParkStep, PullOk, TopStep;
    match s.worker
    case Top => TopRefines(s);
    case Pull(_) => PullRefines(s);
    case Decode => DecodeRefines(s);
    case PubRetired => ReportRefines(s);
    case PubDone => ReportRefines(s);
    case Notify => ReportRefines(s);
    case WakeCpu => ReportRefines(s);
    case LoadEpoch => ParkRefines(s);
    case Spin(_) => ParkRefines(s);
    case Park(_) => ParkRefines(s);
    case Comparing(_) => ParkRefines(s);
    case Unpark => ParkRefines(s);
    case Reload => ParkRefines(s);
  }

  lemma GuestRefines(s: Sys, a: Arch)
    requires Shape(s) && s.cpu.Idle?
    ensures Shape(s.(arch := a)) && Outcome(s.(arch := a)) == Outcome(s).(arch := a)
  {
    hide Slice, Run, Leftover, SyncLoop, CanTake, TakeChunk;
    assert Data(s.(arch := a)) == Data(s);
  }

  lemma IdleRefines(s: Sys)
    requires Shape(s) && s.cpu.Idle?
    ensures var t := s.(cpu := Waiting(Check, Join)); Shape(t) && Outcome(t) == Outcome(s)
  {
    hide Shape, Outcome;
    WorkFrame(s, s.(cpu := Waiting(Check, Join)));
  }

  lemma TimeoutRefines(s: Sys)
    requires Shape(s) && s.cpu.Waiting? && s.cpu.stage.Asleep?
    ensures var t := s.(cpu := Woken(s.cpu)); Shape(t) && Outcome(t) == Outcome(s)
  {
    hide Shape, Outcome;
    StagePhase(Disarm, s.cpu.stage, s.cpu.goal);
    WorkFrame(s, s.(cpu := Woken(s.cpu)));
  }

  /** Simulation: a step of the system is a step of the synchronous machine, or
      changes nothing of what the synchronous machine would have done. */
  lemma StepRefines(s: Sys, l: Label)
    requires Inv(s) && Enabled(s, l)
    ensures Shape(Do(s, l)) && Outcome(Do(s, l)) == SyncDo(Outcome(s), l)
  {
    hide Outcome, Shape, Guarded, Flow, Mode, Carried, FencesAhead, Published, Wakes,
      TickStart, CpuStep, WorkerStep, CpuEnabled, WorkerEnabled, SyncTick;
    match l
    case Guest(a) => GuestRefines(s, a);
    case Tick => TickRefines(s);
    case JoinCall => IdleRefines(s);
    case Cpu => CpuRefines(s);
    case Timeout => TimeoutRefines(s);
    case Work => WorkerRefines(s);
    case GiveUp => RestRefines(s, s.parked, Park(s.worker.epoch));
    case Spurious => RestRefines(s, s.parked, Unpark);
  }

  lemma {:induction false} RunRefines(s: Sys, ls: seq<Label>)
    requires Inv(s) && IsRun(s, ls)
    ensures Inv(After(s, ls))
    ensures Outcome(After(s, ls)) == SyncAfter(Outcome(s), ls)
    decreases |ls|
  {
    hide Inv, Outcome, Do, Enabled, SyncDo;
    if ls != [] {
      StepKeepsInv(s, ls[0]);
      StepRefines(s, ls[0]);
      RunRefines(Do(s, ls[0]), ls[1..]);
    }
  }
}
