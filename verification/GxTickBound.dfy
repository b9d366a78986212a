/** Ticks return under every schedule that stops neither thread: the steps that
    get anywhere are bounded, and until control is back with the guest there is
    always one to take. */
module GxTickBound {
  import opened Bytes
  import opened GxDecode
  import opened GxScanner
  import opened CommandFifo
  import opened GxSync
  import opened GxPipeline
  import opened GxFlow
  import opened GxPipelineInv
  import opened GxPipelineSteps
  import opened GxPipelineLive
  import G = GxListLag

  // ---- what is left to do -------------------------------------------------

  /** Where the worker is, whoever holds it up. */
  function WorkRank(w: Worker): nat {
    match w
    case Decode => 13
    case PubRetired => 12
    case PubDone => 11
    case Notify => 10
    case WakeCpu => 9
    case Park(_) => 8
    case Comparing(_) => 7
    case Sleeping(_) => 6
    case Unpark => 5
    case Reload => 4
    case LoadEpoch => 4
    case Spin(_) => 3
    case Top => 2
    case Pull(_) => 1
    case Dead => 0
  }

  function WorkAhead(s: Sys): int {
    if CaughtUp(s) then 0 else 16 * (s.produced - s.pulled) + WorkRank(s.worker)
  }

  function CpuLeft(cpu: Cpu): nat {
    16400 * Phase(cpu) + Amount(cpu)
  }

  /** Steps that get somewhere, at most, until the guest acts again. */
  function Left(s: Sys): int {
    1000 * CpuLeft(s.cpu) + WorkAhead(s)
  }

  /** A step that gets somewhere: one of the CPU outside a wait or out of a wait
      that is served, or one of a worker that is behind. */
  predicate Gains(s: Sys, l: Label) {
    match l
    case Cpu => s.cpu.Waiting? ==> s.cpu.stage.Check? && Served(s, s.cpu.goal)
    case Work => !CaughtUp(s)
    case _ => false
  }

  ghost function Gained(s: Sys, ls: seq<Label>): nat
    requires IsRun(s, ls)
    decreases |ls|
  {
    if ls == [] then 0 else (if Gains(s, ls[0]) then 1 else 0) + Gained(Do(s, ls[0]), ls[1..])
  }

  // ---- the worker ---------------------------------------------------------

  lemma PullGains(s: Sys)
    requires Inv(s) && s.worker.Pull?
    ensures PullOk(s) && 0 <= WorkAhead(PullStep(s)) < WorkAhead(s) && PullStep(s).cpu == s.cpu
  {
    hide Shape, Guarded, Flow, Mode, Carried, FencesAhead, Published, Wakes, PullSize;
    PullFits(s);
  }

  lemma ParkGains(s: Sys)
    requires Shape(s) && Idling(s.worker) && !CaughtUp(s)
    ensures 0 <= WorkAhead(ParkStep(s)) < WorkAhead(s) && ParkStep(s).cpu == s.cpu
  {
  }

  lemma ReportGains(s: Sys)
    requires Shape(s) && !CaughtUp(s)
    requires s.worker.PubRetired? || s.worker.PubDone? || s.worker.Notify? || s.worker.WakeCpu?
    ensures 0 <= WorkAhead(ReportStep(s)) < WorkAhead(s) && CpuLeft(ReportStep(s).cpu) == CpuLeft(s.cpu)
  {
    SleepKeepsCpuLeft(s.cpu);
    hide CpuLeft, Woken;
  }

  lemma TopGains(s: Sys)
    requires Shape(s) && !CaughtUp(s) && (s.worker.Top? || s.worker.Decode?)
    ensures s.worker.Top? ==> 0 <= WorkAhead(TopStep(s)) < WorkAhead(s) && TopStep(s).cpu == s.cpu
    ensures s.worker.Decode? ==> 0 <= WorkAhead(DecodeStep(s)) < WorkAhead(s) && DecodeStep(s).cpu == s.cpu
  {
    hide Run, Leftover;
  }

  lemma SleepKeepsCpuLeft(cpu: Cpu)
    ensures CpuLeft(Woken(cpu)) == CpuLeft(cpu)
  {
  }

  lemma WorkerGains(s: Sys)
    requires Inv(s) && WorkerEnabled(s) && !CaughtUp(s)
    ensures 0 <= WorkAhead(WorkerStep(s)) < WorkAhead(s)
    ensures CpuLeft(WorkerStep(s).cpu) == CpuLeft(s.cpu)
  {
    ShapeHere(s);
    hide Inv, Shape, WorkAhead, CpuLeft, CaughtUp, PullStep, ParkStep, ReportStep, TopStep, DecodeStep, PullOk;
    match s.worker
    case Pull(_) => PullGains(s);
    case Top => TopGains(s);
    case Decode => TopGains(s);
    case PubRetired => ReportGains(s);
    case PubDone => ReportGains(s);
    case Notify => ReportGains(s);
    case WakeCpu => ReportGains(s);
    case LoadEpoch => ParkGains(s);
    case Spin(_) => ParkGains(s);
    case Park(_) => ParkGains(s);
    case Comparing(_) => ParkGains(s);
    case Unpark => ParkGains(s);
    case Reload => ParkGains(s);
  }

  lemma WorkStep(s: Sys)
    requires Inv(s) && WorkerEnabled(s)
    ensures 0 <= WorkAhead(WorkerStep(s)) <= WorkAhead(s) - (if CaughtUp(s) then 0 else 1)
    ensures CpuLeft(WorkerStep(s).cpu) == CpuLeft(s.cpu)
  {
    hide Inv, WorkerStep, WorkerEnabled, CpuLeft;
    if CaughtUp(s) {
      G.CaughtUpStays(s);
      WorkKeepsCpuLeft(s);
    } else {
      WorkerGains(s);
    }
  }

  lemma WorkKeepsCpuLeft(s: Sys)
    requires WorkerEnabled(s)
    ensures CpuLeft(WorkerStep(s).cpu) == CpuLeft(s.cpu)
  {
    hide CpuLeft, PullStep, TopStep, DecodeStep, ParkStep, ReportStep, PullOk;
    WorkAndCpu(s);
    SleepKeepsCpuLeft(s.cpu);
  }

  lemma WorkAndCpu(s: Sys)
    ensures PullOk(s) ==> PullStep(s).cpu == s.cpu
    ensures TopStep(s).cpu == DecodeStep(s).cpu == s.cpu
    ensures Idling(s.worker) ==> ParkStep(s).cpu == s.cpu
    ensures s.worker.WakeCpu? ==> ReportStep(s).cpu == Woken(s.cpu)
    ensures s.worker.PubRetired? || s.worker.PubDone? || s.worker.Notify? ==> ReportStep(s).cpu == s.cpu
  {
    hide Woken, PullSize, Run, Leftover, ParkNext;
  }

  /** Sleeps that end by themselves, and the worker giving up. */
  lemma RestStep(s: Sys, l: Label)
    requires Shape(s) && Enabled(s, l) && (l.Timeout? || l.GiveUp? || l.Spurious?)
    ensures 0 <= WorkAhead(Do(s, l)) <= WorkAhead(s) && CpuLeft(Do(s, l).cpu) == CpuLeft(s.cpu)
  {
    SleepKeepsCpuLeft(s.cpu);
    hide CpuLeft, Woken;
  }

  // ---- the CPU ------------------------------------------------------------

  lemma NearerIsLess(t: Cpu, s: Cpu)
    requires Nearer(t, s)
    ensures CpuLeft(t) < CpuLeft(s)
  {
    AmountBound(t);
    hide Phase, Amount;
  }

  lemma AmountBound(cpu: Cpu)
    ensures Amount(cpu) < 16400
  {
  }

  /** All the CPU adds to the worker's load is a chunk at a time. */
  lemma CpuLoad(s: Sys)
    requires Shape(s) && CpuEnabled(s)
    ensures 0 <= WorkAhead(CpuStep(s)) <= WorkAhead(s) + 525
    ensures s.cpu.Waiting? ==> WorkAhead(CpuStep(s)) == WorkAhead(s)
  {
    CpuFrame(s);
    hide CpuStep, CpuEnabled;
  }

  lemma CpuFrame(s: Sys)
    requires CpuEnabled(s)
    ensures LoadKept(s, CpuStep(s))
  {
    hide LoadKept, CopyOk, HeadStep, WaitStep, CopyStep, PublishStep, HandshakeStep, AccountStep, SettleStep, SyncStep,
      ResumeStep;
    match s.cpu
    case Head(_, _) => HeadFrame(s);
    case Waiting(_, _) => WaitFrame(s);
    case Copy(_, _, _) => PushFrame(s);
    case Publish(_, _, _) => PushFrame(s);
    case Bump(_, _, _) => PushFrame(s);
    case WakeCheck(_, _, _) => PushFrame(s);
    case WakeCall(_, _, _) => PushFrame(s);
    case Account(_, _, _) => PushFrame(s);
    case Settled(_) => EndFrame(s);
    case Sync(_) => EndFrame(s);
    case Resume => EndFrame(s);
  }

  /** One chunk more, or the worker woken; nothing else of the worker's. */
  predicate LoadKept(s: Sys, t: Sys) {
    && t.pulled == s.pulled
    && (t.produced == s.produced || (s.cpu.Publish? && t.produced == s.produced + CHUNK))
    && (t.worker == s.worker || (s.cpu.WakeCall? && s.worker.Sleeping? && t.worker.Unpark?))
  }

  lemma WaitFrame(s: Sys)
    requires s.cpu.Waiting? && !s.cpu.stage.Asleep?
    ensures LoadKept(s, WaitStep(s))
  {
    hide WaitStep;
    WaitStepLeavesWork(s);
  }

  lemma PushFrame(s: Sys)
    ensures s.cpu.Copy? && CopyOk(s) ==> LoadKept(s, CopyStep(s))
    ensures s.cpu.Publish? ==> LoadKept(s, PublishStep(s))
    ensures s.cpu.Bump? || s.cpu.WakeCheck? || s.cpu.WakeCall? ==> LoadKept(s, HandshakeStep(s))
    ensures s.cpu.Account? ==> LoadKept(s, AccountStep(s))
  {
    hide CanTake, ChunkAt, TakeChunk, Overwrite;
  }

  lemma EndFrame(s: Sys)
    ensures s.cpu.Settled? ==> LoadKept(s, SettleStep(s))
    ensures s.cpu.Sync? ==> LoadKept(s, SyncStep(s))
    ensures s.cpu.Resume? ==> LoadKept(s, ResumeStep(s))
  {
    hide SyncChunk, SyncGuard, CanResume;
  }

  lemma HeadFrame(s: Sys)
    requires s.cpu.Head?
    ensures LoadKept(s, HeadStep(s))
  {
    hide CanTake, ChunkAt, Scan, AfterLoop;
  }

  /** Going round in a wait changes nothing. */
  lemma GoesRound(s: Sys)
    requires s.cpu.Waiting? && !s.cpu.stage.Asleep? && !s.failed && !(s.cpu.stage.Check? && Served(s, s.cpu.goal))
    ensures WaitStep(s).cpu.Waiting? && WaitStep(s).cpu.goal == s.cpu.goal
  {
    hide Served, Watched, Reached;
  }

  lemma WaitingStep(s: Sys)
    requires Inv(s) && CpuEnabled(s) && s.cpu.Waiting? && !Gains(s, Cpu)
    ensures CpuLeft(CpuStep(s).cpu) == CpuLeft(s.cpu)
  {
    Standing(s);
    hide Inv, Served, WaitStep, Phase, Amount;
    GoesRound(s);
    SamePhaseInWait(WaitStep(s).cpu, s.cpu);
  }

  lemma CpuLeftStep(s: Sys)
    requires Inv(s) && CpuEnabled(s)
    ensures CpuLeft(CpuStep(s).cpu) + (if Gains(s, Cpu) then 1 else 0) <= CpuLeft(s.cpu)
  {
    if Gains(s, Cpu) {
      hide Inv, CpuStep, CpuEnabled, CpuLeft, Served;
      CpuNotIdle(s);
      CpuAdvances(s);
      NearerIsLess(CpuStep(s).cpu, s.cpu);
    } else {
      WaitingStep(s);
    }
  }

  lemma CpuNotIdle(s: Sys)
    requires CpuEnabled(s)
    ensures !s.cpu.Idle?
  {
  }

  // ---- any schedule -------------------------------------------------------

  lemma StepBound(s: Sys, l: Label)
    requires Inv(s) && Enabled(s, l) && G.Internal(l)
    ensures 0 <= Left(Do(s, l)) <= Left(s) - (if Gains(s, l) then 1 else 0)
  {
    ShapeHere(s);
    hide Inv, Shape, WorkAhead, CpuLeft, CpuStep, WorkerStep, CpuEnabled, WorkerEnabled, CaughtUp, Served;
    match l
    case Cpu =>
      CpuLoad(s);
      CpuLeftStep(s);
    case Work => WorkStep(s);
    case Timeout => RestStep(s, l);
    case GiveUp => RestStep(s, l);
    case Spurious => RestStep(s, l);
  }

  lemma LeftIsNatural(s: Sys)
    requires Inv(s)
    ensures Left(s) >= 0
  {
    ShapeHere(s);
    hide Inv, CpuLeft;
  }

  /** EVERY SCHEDULE.  From a state of the system, however the two threads are
      scheduled and whatever sleeps end early, at most `Left` of their steps get
      anywhere before the guest acts again: there is no livelock in which the
      threads keep each other busy. */
  lemma {:induction false} TickIsBounded(s: Sys, ls: seq<Label>)
    requires Inv(s) && IsRun(s, ls) && G.AllInternal(ls)
    ensures Inv(After(s, ls)) && 0 <= Left(After(s, ls)) <= Left(s) - Gained(s, ls)
    decreases |ls|
  {
    hide Inv, Left, Gains, Do, Enabled, G.Internal;
    if ls == [] {
      LeftIsNatural(s);
    } else {
      StepKeepsInv(s, ls[0]);
      StepBound(s, ls[0]);
      TickIsBounded(Do(s, ls[0]), ls[1..]);
    }
  }

  /** And until control is back there is one to take: by the CPU, or by the
      worker while the wait is not served; a CPU that sleeps or is about to in a
      wait already served is back at its test after four steps of the two at
      most. */
  lemma NeverStuck(s: Sys) returns (ls: seq<Label>)
    requires Inv(s) && !s.cpu.Idle?
    ensures ls == [] || (s.cpu.Waiting? && Served(s, s.cpu.goal))
    ensures IsRun(s, ls) && OwnSteps(ls) && |ls| <= 4
    ensures var t := After(s, ls); (Enabled(t, Cpu) && Gains(t, Cpu)) || (Enabled(t, Work) && Gains(t, Work))
  {
    hide Inv, Do, Enabled, Served, CaughtUp, Left;
    ls := [];
    if s.cpu.Waiting? && Served(s, s.cpu.goal) {
      ls := BackToCheck(s);
      CpuAdvances(After(s, ls));
    } else if s.cpu.Waiting? {
      CaughtUpOrNot(s);
      CanWork(s);
    } else {
      CpuAdvances(s);
    }
  }

  lemma CanWork(s: Sys)
    requires WorkerEnabled(s)
    ensures Enabled(s, Work)
  {
  }
}
