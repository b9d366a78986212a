/** No thread is ever stuck: waits are served, sleeps are ended, ticks return. */
module GxPipelineLive {
  import opened Bytes
  import opened GxDecode
  import opened GxScanner
  import opened CommandFifo
  import opened GxSync
  import opened GxPipeline
  import opened GxFlow
  import opened GxPipelineInv
  import opened GxPipelineSteps

  // ---- how much the worker still has to do --------------------------------

  function Rank(w: Worker): nat {
    match w
    case Decode => 12
    case PubRetired => 11
    case PubDone => 10
    case Notify => 9
    case WakeCpu => 8
    case Park(_) => 7
    case Comparing(_) => 6
    case Unpark => 5
    case Reload => 4
    case LoadEpoch => 4
    case Spin(_) => 3
    case Top => 2
    case Pull(_) => 1
    case Sleeping(_) => 0
    case Dead => 0
  }

  /** Worker steps left, at most, until it has processed everything published. */
  function WorkLeft(s: Sys): int {
    16 * (s.produced - s.pulled) + Rank(s.worker)
  }

  /** Everything published has been pulled, decoded and reported. */
  predicate CaughtUp(s: Sys) {
    s.produced == s.pulled && !s.worker.Decode? && !s.worker.PubRetired? && !s.worker.PubDone?
  }

  /** Whatever the CPU waits for has then happened: a fence because it ends at
      or before the first byte not executed, although `retired` may be stale. */
  lemma CaughtUpServes(s: Sys)
    requires Inv(s) && s.cpu.Waiting? && CaughtUp(s)
    ensures Served(s, s.cpu.goal)
  {
    hide Slice, CommandSize, Sizable, Stream, NextFences, Rest, Mode, Carried, Wakes, CanTake, ChunkAt;
    if s.cpu.goal.Fenced? {
      QuietBytes(s);
    }
  }

  /** Program points at which the CPU owes the worker no wake. */
  predicate OwesNoWake(cpu: Cpu) {
    cpu.Waiting? || cpu.Head?
  }

  lemma UnservedWorkerEnabled(s: Sys)
    requires Inv(s) && OwesNoWake(s.cpu) && !CaughtUp(s)
    ensures WorkerEnabled(s)
  {
    hide CommandSize, Guarded, Mode, Carried, FencesAhead, Published, CpuSleeps, PullOk, PullSize;
    if s.worker.Pull? {
      PullFits(s);
    }
  }

  lemma PullAdvances(s: Sys)
    requires Inv(s) && s.worker.Pull?
    ensures PullOk(s) && 0 <= WorkLeft(PullStep(s)) < WorkLeft(s)
    ensures PullStep(s).cpu == s.cpu
  {
    hide Shape, Guarded, Flow, Mode, Carried, FencesAhead, Published, Wakes, PullSize;
    PullFits(s);
  }

  lemma ParkAdvances(s: Sys)
    requires Inv(s) && OwesNoWake(s.cpu) && Idling(s.worker) && s.produced != s.pulled
    ensures 0 <= WorkLeft(ParkStep(s)) < WorkLeft(s)
    ensures ParkStep(s).cpu == s.cpu
  {
    hide CommandSize, Slice, Guarded, Flow, Mode, Carried, FencesAhead, Published, CpuSleeps;
  }

  lemma ReportAdvances(s: Sys)
    requires Shape(s) && OwesNoWake(s.cpu)
    requires s.worker.PubRetired? || s.worker.PubDone? || s.worker.Notify? || s.worker.WakeCpu?
    ensures 0 <= WorkLeft(ReportStep(s)) < WorkLeft(s)
    ensures s.cpu.Waiting? ==> ReportStep(s).cpu.Waiting? && ReportStep(s).cpu.goal == s.cpu.goal
    ensures s.cpu.Head? ==> ReportStep(s).cpu == s.cpu
  {
  }

  lemma TopAdvances(s: Sys)
    requires Shape(s) && !CaughtUp(s) && (s.worker.Top? || s.worker.Decode?)
    ensures s.worker.Top? ==> 0 <= WorkLeft(TopStep(s)) < WorkLeft(s) && TopStep(s).cpu == s.cpu
    ensures s.worker.Decode? ==> 0 <= WorkLeft(DecodeStep(s)) < WorkLeft(s) && DecodeStep(s).cpu == s.cpu
  {
    hide Run, Leftover;
  }

  lemma CaughtUpParked(s: Sys)
    requires Idling(s.worker) && !CaughtUp(s)
    ensures s.produced != s.pulled
  {
  }

  lemma WorkerAdvances(s: Sys)
    requires Inv(s) && OwesNoWake(s.cpu) && !CaughtUp(s) && WorkerEnabled(s)
    ensures 0 <= WorkLeft(WorkerStep(s)) < WorkLeft(s)
    ensures s.cpu.Waiting? ==> WorkerStep(s).cpu.Waiting? && WorkerStep(s).cpu.goal == s.cpu.goal
    ensures s.cpu.Head? ==> WorkerStep(s).cpu == s.cpu
  {
    ShapeHere(s);
    hide Inv, Shape, WorkLeft, CaughtUp, OwesNoWake, PullOk, PullStep, ParkStep, ReportStep, TopStep, DecodeStep;
    if Idling(s.worker) {
      CaughtUpParked(s);
    }
    match s.worker
    case Pull(_) => PullAdvances(s);
    case Top => TopAdvances(s);
    case Decode => TopAdvances(s);
    case PubRetired => ReportAdvances(s);
    case PubDone => ReportAdvances(s);
    case Notify => ReportAdvances(s);
    case WakeCpu => ReportAdvances(s);
    case LoadEpoch => ParkAdvances(s);
    case Spin(_) => ParkAdvances(s);
    case Park(_) => ParkAdvances(s);
    case Comparing(_) => ParkAdvances(s);
    case Unpark => ParkAdvances(s);
    case Reload => ParkAdvances(s);
  }

  // ---- every wait is served -----------------------------------------------

  ghost predicate Unserved(s: Sys) {
    s.cpu.Waiting? && !Served(s, s.cpu.goal)
  }

  /** The run stays in one wait that is not served yet. */
  ghost predicate StaysUnserved(s: Sys, ls: seq<Label>)
    requires IsRun(s, ls)
    decreases |ls|
  {
    ls != [] ==> Unserved(s) && StaysUnserved(Do(s, ls[0]), ls[1..])
  }

  /** Steps of the worker's own program among the labels of a run. */
  function WorkSteps(ls: seq<Label>): nat {
    if ls == [] then 0 else (if ls[0] == Work then 1 else 0) + WorkSteps(ls[1..])
  }

  /** While a wait is unserved nothing sends the worker back: it neither gives
      up nor is asleep, and the waiting CPU takes nothing from its progress. */
  lemma UnservedStep(s: Sys, l: Label)
    requires Inv(s) && Unserved(s) && Enabled(s, l)
    ensures 0 <= WorkLeft(Do(s, l)) <= WorkLeft(s) - if l == Work then 1 else 0
  {
    hide Inv, Served, WorkerStep, WorkerEnabled, CaughtUp;
    CaughtUpOrNot(s);
    match l
    case Work => WorkerAdvances(s);
    case Cpu => WaitLeavesWork(s);
    case Timeout =>
    case GiveUp => SpinningCaughtUp(s);
    case Spurious => UnservedAwake(s);
  }

  lemma CaughtUpOrNot(s: Sys)
    requires Inv(s) && Unserved(s)
    ensures !CaughtUp(s) && WorkerEnabled(s) && WorkLeft(s) >= 0
  {
    hide Inv, Served, CaughtUp, WorkerEnabled;
    if CaughtUp(s) {
      CaughtUpServes(s);
    }
    UnservedWorkerEnabled(s);
    ShapeHere(s);
  }

  lemma ReachedLeavesWork(s: Sys, goal: Goal)
    ensures var t := Reached(s, goal); t.produced == s.produced && t.pulled == s.pulled && t.worker == s.worker
  {
  }

  lemma WaitStepLeavesWork(s: Sys)
    requires s.cpu.Waiting? && !s.cpu.stage.Asleep?
    ensures var t := WaitStep(s); t.produced == s.produced && t.pulled == s.pulled && t.worker == s.worker
  {
    hide Reached, Served, Watched;
    ReachedLeavesWork(s, s.cpu.goal);
  }

  lemma WaitLeavesWork(s: Sys)
    requires CpuEnabled(s) && s.cpu.Waiting?
    ensures var t := CpuStep(s);
            t.produced == s.produced && t.pulled == s.pulled && t.worker == s.worker
  {
    hide WaitStep, HeadStep, CopyStep, SyncStep;
    WaitStepLeavesWork(s);
  }

  lemma SpinningCaughtUp(s: Sys)
    requires s.worker.Spin? && s.produced == s.pulled
    ensures CaughtUp(s)
  {
  }

  lemma UnservedAwake(s: Sys)
    requires WorkerEnabled(s)
    ensures !s.worker.Sleeping?
  {
  }

  /** LIVENESS.  In any run that stays in one unserved wait, under any schedule
      whatever, the worker always has a step to take and takes at most
      `WorkLeft` of them: a schedule that does not starve the worker serves the
      wait.  That covers ring space, the fence of the tick, the handoff to
      synchronous mode and the full join. */
  lemma {:induction false} WaitIsBounded(s: Sys, ls: seq<Label>)
    requires Inv(s) && IsRun(s, ls) && StaysUnserved(s, ls)
    ensures Inv(After(s, ls))
    ensures WorkSteps(ls) <= WorkLeft(s) - WorkLeft(After(s, ls))
    ensures WorkLeft(After(s, ls)) >= 0
    ensures Unserved(After(s, ls)) ==> WorkerEnabled(After(s, ls))
    decreases |ls|
  {
    hide Inv, Unserved, WorkLeft, WorkerEnabled, Do, Enabled;
    if ls == [] {
      Settles(s);
    } else {
      StepKeepsInv(s, ls[0]);
      UnservedStep(s, ls[0]);
      WaitIsBounded(Do(s, ls[0]), ls[1..]);
    }
  }

  lemma Settles(s: Sys)
    requires Inv(s)
    ensures WorkLeft(s) >= 0
    ensures Unserved(s) ==> WorkerEnabled(s)
  {
    hide Inv, Unserved, WorkerEnabled;
    if Unserved(s) {
      CaughtUpOrNot(s);
    }
    ShapeHere(s);
  }

  // ---- no sleep is missed -------------------------------------------------

  lemma WakeCallWakes(s: Sys)
    requires s.worker.Sleeping? && s.cpu.WakeCall?
    ensures IsRun(s, [Cpu]) && After(s, [Cpu]).worker == Unpark
  {
    assert [Cpu][1..] == [];
  }

  lemma WakeCheckWakes(s: Sys)
    requires s.worker.Sleeping? && s.parked && s.cpu.WakeCheck?
    ensures IsRun(s, [Cpu, Cpu]) && After(s, [Cpu, Cpu]).worker == Unpark
  {
    var t := HandshakeStep(s);
    WakeCallWakes(t);
    assert [Cpu, Cpu][1..] == [Cpu];
  }

  lemma BumpWakes(s: Sys)
    requires s.worker.Sleeping? && s.parked && s.cpu.Bump?
    ensures IsRun(s, [Cpu, Cpu, Cpu]) && After(s, [Cpu, Cpu, Cpu]).worker == Unpark
  {
    var t := HandshakeStep(s);
    WakeCheckWakes(t);
    assert [Cpu, Cpu, Cpu][1..] == [Cpu, Cpu];
  }

  /** The worker is never left asleep with bytes in the ring: the CPU is then
      between publishing them and its wake, and at most three CPU steps later
      the worker is awake. */
  lemma SleeperIsWoken(s: Sys)
    requires Inv(s) && s.worker.Sleeping? && s.produced != s.pulled
    ensures s.cpu.Bump? || s.cpu.WakeCheck? || s.cpu.WakeCall?
    ensures s.cpu.Bump? ==> IsRun(s, [Cpu, Cpu, Cpu]) && After(s, [Cpu, Cpu, Cpu]).worker == Unpark
    ensures s.cpu.WakeCheck? ==> IsRun(s, [Cpu, Cpu]) && After(s, [Cpu, Cpu]).worker == Unpark
    ensures s.cpu.WakeCall? ==> IsRun(s, [Cpu]) && After(s, [Cpu]).worker == Unpark
  {
    hide Shape, Guarded, Flow, Mode, Carried, FencesAhead, Published, CpuSleeps, IsRun, After;
    match s.cpu
    case Bump(_, _, _) => BumpWakes(s);
    case WakeCheck(_, _, _) => WakeCheckWakes(s);
    case WakeCall(_, _, _) => WakeCallWakes(s);
    case _ =>
  }

  /** A CPU asleep although its wait is served is woken by the worker within
      three worker steps, without the timeout that bounds the sleep. */
  lemma ServedSleeperIsWoken(s: Sys) returns (ls: seq<Label>)
    requires Inv(s) && s.cpu.Waiting? && s.cpu.stage.Asleep? && Served(s, s.cpu.goal)
    ensures ls == [Work] || ls == [Work, Work] || ls == [Work, Work, Work]
    ensures IsRun(s, ls)
    ensures After(s, ls).cpu == Waiting(Disarm, s.cpu.goal) && Served(After(s, ls), s.cpu.goal)
  {
    hide Inv, Enabled, Do, WakeComing, Served;
    ServedSleeperSoon(s);
    if s.worker.WakeCpu? {
      ls := [Work];
      WakeNow(s);
    } else if s.worker.Notify? {
      ls := [Work, Work];
      NotifyNext(s);
      WakeNow(Do(s, Work));
    } else {
      ls := [Work, Work, Work];
      ReportNext(s);
      NotifyNext(Do(s, Work));
      WakeNow(Do(Do(s, Work), Work));
    }
  }

  lemma ServedSleeperSoon(s: Sys)
    requires Inv(s) && s.cpu.Waiting? && s.cpu.stage.Asleep? && Served(s, s.cpu.goal)
    ensures s.waiting && WakeComing(s)
  {
    hide Shape, Guarded, Flow, Mode, Carried, FencesAhead, Published, WorkerSleeps, WakeComing;
  }

  lemma WakeNow(s: Sys)
    requires s.cpu.Waiting? && s.cpu.stage.Asleep? && s.worker.WakeCpu?
    ensures Enabled(s, Work) && Do(s, Work).cpu == Waiting(Disarm, s.cpu.goal)
    ensures Served(Do(s, Work), s.cpu.goal) == Served(s, s.cpu.goal)
  {
  }

  lemma NotifyNext(s: Sys)
    requires s.cpu.Waiting? && s.cpu.stage.Asleep? && s.waiting && s.worker.Notify?
    ensures Enabled(s, Work) && Do(s, Work) == s.(worker := WakeCpu)
    ensures Served(Do(s, Work), s.cpu.goal) == Served(s, s.cpu.goal)
  {
  }

  lemma ReportNext(s: Sys)
    requires s.cpu.Waiting? && s.cpu.stage.Asleep? && s.waiting && WakeComing(s)
    requires !s.worker.WakeCpu? && !s.worker.Notify?
    ensures Enabled(s, Work) && Do(s, Work) == s.(done := s.pulled, worker := Notify)
    ensures Served(Do(s, Work), s.cpu.goal) == Served(s, s.cpu.goal)
  {
  }

  // ---- ticks return -------------------------------------------------------

  lemma {:induction false} RunsCompose(s: Sys, a: seq<Label>, b: seq<Label>)
    requires IsRun(s, a) && IsRun(After(s, a), b)
    ensures IsRun(s, a + b) && After(s, a + b) == After(After(s, a), b)
    decreases |a|
  {
    hide Do, Enabled;
    if a == [] {
      assert a + b == b;
    } else {
      assert (a + b)[1..] == a[1..] + b;
      RunsCompose(Do(s, a[0]), a[1..], b);
    }
  }

  /** Only the two threads moving, nothing spurious and no timeout. */
  predicate OwnSteps(ls: seq<Label>) {
    forall i :: 0 <= i < |ls| ==> ls[i] == Cpu || ls[i] == Work
  }

  function StageRank(stage: Stage): nat {
    match stage
    case Check => 0
    case Disarm => 1
    case Compare(_) => 2
    case Arm(_) => 3
    case Asleep(_) => 4
  }

  /** A wait that is served gets back to its test. */
  lemma {:induction false} BackToCheck(s: Sys) returns (ls: seq<Label>)
    requires Inv(s) && s.cpu.Waiting? && Served(s, s.cpu.goal)
    ensures IsRun(s, ls) && OwnSteps(ls) && |ls| <= StageRank(s.cpu.stage)
    ensures Inv(After(s, ls)) && Served(After(s, ls), s.cpu.goal)
    ensures After(s, ls).cpu == Waiting(Check, s.cpu.goal)
    decreases StageRank(s.cpu.stage)
  {
    hide Inv, Do, Enabled, Served;
    if s.cpu.stage.Check? {
      ls := [];
    } else if s.cpu.stage.Asleep? {
      var first := ServedSleeperIsWoken(s);
      RunKeepsInv(s, first);
      var rest := BackToCheck(After(s, first));
      RunsCompose(s, first, rest);
      ls := first + rest;
    } else {
      ServedStageMoves(s);
      StepKeepsInv(s, Cpu);
      var rest := BackToCheck(Do(s, Cpu));
      ls := [Cpu] + rest;
    }
  }

  lemma ServedHasMoved(s: Sys)
    requires Inv(s) && s.cpu.Waiting? && Served(s, s.cpu.goal)
    ensures s.cpu.stage.Compare? ==> Watched(s, s.cpu.goal) != s.cpu.stage.seen
  {
    hide Shape, Guarded, Flow, Mode, Carried, FencesAhead, Published, WorkerSleeps, Watched, Needed;
  }

  lemma WaitMoves(s: Sys)
    requires s.cpu.Waiting? && !s.cpu.stage.Check? && !s.cpu.stage.Asleep?
    requires s.cpu.stage.Compare? ==> Watched(s, s.cpu.goal) != s.cpu.stage.seen
    ensures var t := WaitStep(s);
            && t.cpu.Waiting? && t.cpu.goal == s.cpu.goal && StageRank(t.cpu.stage) < StageRank(s.cpu.stage)
            && t == s.(waiting := t.waiting, cpu := t.cpu)
  {
    hide Watched, Served, Reached;
  }

  lemma ServedFrame(s: Sys, waiting: bool, cpu: Cpu, goal: Goal)
    ensures Served(s.(waiting := waiting, cpu := cpu), goal) == Served(s, goal)
  {
  }

  lemma ServedStageMoves(s: Sys)
    requires Inv(s) && s.cpu.Waiting? && Served(s, s.cpu.goal) && !s.cpu.stage.Check? && !s.cpu.stage.Asleep?
    ensures Enabled(s, Cpu)
    ensures var t := Do(s, Cpu);
            && t.cpu.Waiting? && t.cpu.goal == s.cpu.goal && Served(t, s.cpu.goal)
            && StageRank(t.cpu.stage) < StageRank(s.cpu.stage)
  {
    ServedHasMoved(s);
    WaitMoves(s);
    hide Inv, WaitStep, Watched, Served, StageRank, WorkerStep, WorkerEnabled;
    ServedFrame(s, WaitStep(s).waiting, WaitStep(s).cpu, s.cpu.goal);
  }

  lemma {:induction false} RunKeepsInv(s: Sys, ls: seq<Label>)
    requires Inv(s) && IsRun(s, ls)
    ensures Inv(After(s, ls))
    decreases |ls|
  {
    hide Inv, Do, Enabled;
    if ls != [] {
      StepKeepsInv(s, ls[0]);
      RunKeepsInv(Do(s, ls[0]), ls[1..]);
    }
  }

  /** The worker alone serves a wait. */
  lemma {:induction false} WorkerServes(s: Sys) returns (ls: seq<Label>)
    requires Inv(s) && s.cpu.Waiting?
    ensures IsRun(s, ls) && OwnSteps(ls) && Inv(After(s, ls))
    ensures After(s, ls).cpu.Waiting? && After(s, ls).cpu.goal == s.cpu.goal
    ensures Served(After(s, ls), s.cpu.goal)
    decreases WorkLeft(s)
  {
    hide Inv, Served, CaughtUp, WorkerStep, WorkerEnabled, WorkLeft;
    if Served(s, s.cpu.goal) {
      ls := [];
    } else {
      CaughtUpOrNot(s);
      WorkerAdvances(s);
      StepKeepsInv(s, Work);
      var rest := WorkerServes(Do(s, Work));
      ls := [Work] + rest;
    }
  }

  function BudgetLeft(drained: nat): nat {
    if drained < BUDGET then BUDGET - drained else 0
  }

  function Phase(cpu: Cpu): nat {
    match cpu
    case Idle => 0
    case Aborted => 0
    case Sync(_) => 1
    case Resume => 1
    case Settled(_) => 2
    case Waiting(_, Join) => 1
    case Waiting(_, Fenced(_, _)) => 3
    case Waiting(_, Handoff(_, _)) => 4
    case _ => 5
  }

  function Amount(cpu: Cpu): nat {
    match cpu
    case Head(d, _) => 16 * BudgetLeft(d) + 9
    case Waiting(_, Space(d, _, _)) => 16 * BudgetLeft(d) + 8
    case Copy(d, _, _) => 16 * BudgetLeft(d) + 7
    case Publish(d, _, _) => 16 * BudgetLeft(d) + 6
    case Bump(d, _, _) => 16 * BudgetLeft(d) + 5
    case WakeCheck(d, _, _) => 16 * BudgetLeft(d) + 4
    case WakeCall(d, _, _) => 16 * BudgetLeft(d) + 3
    case Account(d, _, _) => 16 * BudgetLeft(d) + 2
    case Sync(d) => BudgetLeft(d) + 1
    case _ => 0
  }

  ghost predicate Nearer(t: Cpu, s: Cpu) {
    Phase(t) < Phase(s) || (Phase(t) == Phase(s) && Amount(t) < Amount(s))
  }

  lemma HeadAdvances(s: Sys)
    requires s.cpu.Head?
    ensures Nearer(HeadStep(s).cpu, s.cpu)
  {
    HeadGoes(s);
    hide HeadStep;
  }

  lemma HeadGoes(s: Sys)
    requires s.cpu.Head?
    ensures var t := HeadStep(s).cpu;
            t.Settled? || (t.Waiting? && !t.goal.Join? && (t.goal.Space? ==> t.goal.drained == s.cpu.drained))
  {
    hide CanTake, ChunkAt, Scan;
  }

  lemma ServedAdvances(s: Sys)
    requires s.cpu.Waiting? && s.cpu.stage.Check? && Served(s, s.cpu.goal) && !s.failed
    ensures Nearer(WaitStep(s).cpu, s.cpu)
  {
    hide Served;
  }

  lemma SyncAdvances(s: Sys)
    requires s.cpu.Sync?
    ensures Nearer(SyncStep(s).cpu, s.cpu)
  {
    hide CanTake, SyncChunk, Run, Leftover;
  }

  lemma PushAdvances(s: Sys)
    requires s.cpu.Publish? || s.cpu.Bump? || s.cpu.WakeCheck? || s.cpu.WakeCall? || (s.cpu.Copy? && CopyOk(s))
    ensures Nearer(CpuStep(s).cpu, s.cpu)
  {
    hide Overwrite, CanTake, ChunkAt;
  }

  lemma AccountAdvances(s: Sys)
    requires s.cpu.Account? && s.cpu.drained < BUDGET
    ensures Nearer(AccountStep(s).cpu, s.cpu)
  {
    hide TakeChunk;
  }

  lemma Standing(s: Sys)
    requires Inv(s)
    ensures !s.failed && !s.cpu.Aborted?
    ensures s.cpu.Copy? ==> CopyOk(s)
    ensures s.cpu.Account? ==> s.cpu.drained < BUDGET
  {
    hide Slice, CanTake, Flow, Mode, Carried, FencesAhead, Published, WorkerSleeps, CpuSleeps;
    if s.cpu.Copy? {
      AlignedInRing(s.produced);
    }
  }

  /** A CPU step outside a wait, or out of a served one, brings the end nearer. */
  lemma CpuAdvances(s: Sys)
    requires Inv(s) && !s.cpu.Idle?
    requires s.cpu.Waiting? ==> s.cpu.stage.Check? && Served(s, s.cpu.goal)
    ensures Enabled(s, Cpu) && Nearer(Do(s, Cpu).cpu, s.cpu)
  {
    hide Inv, Nearer, CopyOk, HeadStep, WaitStep, CopyStep, PublishStep, HandshakeStep, AccountStep, SyncStep, Served;
    Standing(s);
    match s.cpu
    case Head(_, _) => HeadAdvances(s);
    case Waiting(_, _) => ServedAdvances(s);
    case Copy(_, _, _) => PushAdvances(s);
    case Publish(_, _, _) => PushAdvances(s);
    case Bump(_, _, _) => PushAdvances(s);
    case WakeCheck(_, _, _) => PushAdvances(s);
    case WakeCall(_, _, _) => PushAdvances(s);
    case Account(_, _, _) => AccountAdvances(s);
    case Settled(_) => SettleAdvances(s);
    case Sync(_) => SyncAdvances(s);
    case Resume => SettleAdvances(s);
  }

  lemma SettleAdvances(s: Sys)
    requires s.cpu.Settled? || s.cpu.Resume?
    ensures Nearer(CpuStep(s).cpu, s.cpu)
  {
  }

  /** No tick and no join hangs: from every state there are steps of the two
      threads alone, without spurious wakes or timeouts, that return control to
      the guest. */
  lemma {:induction false} TickReturns(s: Sys) returns (ls: seq<Label>)
    requires Inv(s)
    ensures IsRun(s, ls) && OwnSteps(ls) && After(s, ls).cpu.Idle?
    decreases Phase(s.cpu), Amount(s.cpu)
  {
    hide Inv, Served, Do, Enabled, Phase, Amount;
    if s.cpu.Idle? {
      ls := [];
    } else {
      var first, at := [], s;
      if s.cpu.Waiting? {
        var a := WorkerServes(s);
        var b := BackToCheck(After(s, a));
        RunsCompose(s, a, b);
        first, at := a + b, After(s, a + b);
        SamePhaseInWait(at.cpu, s.cpu);
      }
      CpuAdvances(at);
      StepKeepsInv(at, Cpu);
      var rest := TickReturns(Do(at, Cpu));
      RunsCompose(s, first, [Cpu] + rest);
      ls := first + ([Cpu] + rest);
    }
  }

  lemma SamePhaseInWait(a: Cpu, b: Cpu)
    requires a.Waiting? && b.Waiting? && a.goal == b.goal
    ensures Phase(a) == Phase(b) && Amount(a) == Amount(b)
  {
  }

  /** Why a full drain watches `done` and not `retired`: with everything processed
      and a partial command staged, `retired` is behind `produced` and stays so
      until more bytes come, while `done` has arrived. */
  lemma TailNeverRetires(s: Sys)
    requires Inv(s) && s.worker.PubDone? && s.pulled == s.produced && s.retired == Pos(s) && s.buf != []
    ensures var t := ReportStep(s);
            t.done == t.produced && t.retired < t.produced && CaughtUp(t) && !WorkComes(t)
  {
    hide Guarded, Mode, Carried, FencesAhead, Published, Wakes, CommandSize;
  }

  /** The worker has something to pull or to decode. */
  predicate WorkComes(s: Sys) {
    s.produced != s.pulled || s.worker.Decode?
  }
}
