/** A tick that has to wait for space in the ring: how far the worker is driven.
    What is not retired then exceeds the staging buffer by far, so the worker's
    pulls are cut by the ring and the buffer alone, not by how much it has seen
    published, and every schedule drives it through the same points. */
module GxRingPressure {
  import opened Bytes
  import opened GxDecode
  import opened GxStream
  import opened GxScanner
  import opened CommandFifo
  import opened GxSync
  import opened GxPipeline
  import opened GxFlow
  import opened GxPipelineInv
  import opened GxPipelineSteps
  import opened GxPipelineRefines
  import opened GxPipelineTheorems
  import opened GxPipelineLive
  import opened GxTickPlan

  /** A pull with as much published as the ring holds. */
  function FreePull(staged: nat, pulled: int): int {
    PullSize(staged, pulled, pulled + RING)
  }

  /** From stream position `pos` with `m` bytes of `d` handed over: how many have
      been once everything up to offset `goal` is retired. */
  function Driven(g: Gx, d: seq<u8>, pos: int, goal: int, m: nat): nat
    decreases |d| - m
  {
    if m > |d| then m
    else
      var left := Leftover(g, d[..m]);
      var n := FreePull(|left|, pos + m);
      if pos + m - |left| >= goal || n <= 0 then m else Driven(g, d, pos, goal, m + n)
  }

  /** What has to be retired before the last chunk of the tick finds space. */
  function Needs(s: Sys, plan: Plan): int
    requires plan.Pipelined?
  {
    s.produced + |plan.taken| - RING
  }

  /** No fence makes the tick wait for the worker, but the ring does. */
  predicate Pressed(s: Sys, plan: Plan) {
    plan.Pipelined? && plan.fence == 0 && plan.taken != [] && Needs(s, plan) > s.retired
  }

  /** Bytes handed to the decoder when that is retired, told from where the
      worker is before the tick. */
  ghost function DrivenTo(s: Sys, plan: Plan): nat
    requires Shape(s) && plan.Pipelined?
  {
    var d := Data(s) + plan.taken;
    var n := match s.worker
      case Decode => |s.buf|
      case PubRetired => |s.buf|
      case Pull(seen) => |s.buf| + PullSize(|s.buf|, s.pulled, seen)
      case _ => |s.buf| + FreePull(|s.buf|, s.pulled);
    if n < 0 then 0 else Driven(s.g, d, Pos(s), Needs(s, plan), n)
  }

  /** The worker has not got there yet and is on its way. */
  ghost predicate Heading(s: Sys, plan: Plan, t: Sys, m: nat)
    requires Shape(s) && plan.Pipelined?
  {
    var d, pos, goal := Data(s) + plan.taken, Pos(s), Needs(s, plan);
    && t.retired < goal && (t.worker.Decode? || t.pulled == pos + m)
    && match t.worker
       case Decode => t.pulled >= pos && DrivenTo(s, plan) == Driven(s.g, d, pos, goal, t.pulled - pos)
       case PubRetired => DrivenTo(s, plan) == Driven(s.g, d, pos, goal, m)
       case Pull(seen) =>
         var n := PullSize(|t.buf|, t.pulled, seen);
         m + n >= 0 && DrivenTo(s, plan) == Driven(s.g, d, pos, goal, m + n)
       case _ =>
         var n := FreePull(|t.buf|, t.pulled);
         m + n >= 0 && DrivenTo(s, plan) == Driven(s.g, d, pos, goal, m + n)
  }

  /** A pull is cut the same however much beyond the staging buffer is seen. */
  lemma PullIsFree(staged: nat, pulled: int, seen: int)
    requires STAGING < seen - pulled <= RING
    ensures PullSize(staged, pulled, seen) == FreePull(staged, pulled)
  {
    var c := RING - pulled % RING;
    assert c <= RING;
  }

  lemma DrivenStops(g: Gx, d: seq<u8>, pos: int, goal: int, m: nat)
    requires m <= |d| && pos + m - |Leftover(g, d[..m])| >= goal
    ensures Driven(g, d, pos, goal, m) == m
  {
    hide Leftover;
  }

  lemma DrivenGoesOn(g: Gx, d: seq<u8>, pos: int, goal: int, m: nat)
    requires m <= |d| && pos + m - |Leftover(g, d[..m])| < goal && FreePull(|Leftover(g, d[..m])|, pos + m) > 0
    ensures Driven(g, d, pos, goal, m)
            == Driven(g, d, pos, goal, m + FreePull(|Leftover(g, d[..m])|, pos + m))
  {
    hide Leftover, FreePull;
  }

  lemma PublishedClose(t: Sys)
    requires Inv(t) && !t.worker.Decode? && !t.worker.PubRetired?
    ensures t.retired >= t.pulled - CARRY && t.produced <= t.pulled + RING
  {
    hide Slice, CommandSize, Guarded, Flow, Mode, Carried, FencesAhead, WorkerSleeps, CpuSleeps;
  }

  /** Nothing the worker does in a pressed tick is cut by what it has seen. */
  lemma PressedPull(s: Sys, plan: Plan, t: Sys)
    requires Inv(t) && !t.worker.Decode? && !t.worker.PubRetired?
    requires plan.Pipelined? && |plan.taken| <= BUDGET + CHUNK && t.retired < Needs(s, plan) && t.produced >= s.produced
    ensures PullSize(|t.buf|, t.pulled, t.produced) == FreePull(|t.buf|, t.pulled) && t.produced != t.pulled
  {
    PublishedClose(t);
    hide Inv, PullSize, FreePull;
    PullIsFree(|t.buf|, t.pulled, t.produced);
  }

  // ---- every schedule goes through the same points ------------------------

  /** The staged bytes of a worker that has handed over all it pulled. */
  lemma StagedIsLeftover(s: Sys, plan: Plan, t: Sys, p: seq<u8>, m: nat)
    requires Tracks(s, t, p, m) && t.pulled == Pos(s) + m && plan.Pipelined? && p <= plan.taken
    ensures m <= |Data(s) + plan.taken| && t.buf == Leftover(s.g, (Data(s) + plan.taken)[..m])
  {
    var n := StagedPart(s, t, p, m);
    hide Data, Leftover, Run, Slice;
    var d := Data(s) + p;
    assert d[m..n] == [];
    assert (Data(s) + plan.taken)[..m] == d[..m];
  }

  lemma FreePullFits(t: Sys)
    requires Inv(t) && t.worker.PubRetired?
    ensures FreePull(|t.buf|, t.pulled) > 0
  {
    StagedIsShort(t);
    ShapeHere(t);
    hide Inv, PullSize;
    RingAligned(t.pulled);
    PullSizeFits(|t.buf|, t.pulled, t.pulled + RING);
  }

  lemma RingAligned(pulled: int)
    requires pulled % CHUNK == 0
    ensures (pulled + RING) % CHUNK == 0
  {
  }

  lemma Retires(t: Sys)
    requires t.worker.PubRetired?
    ensures ReportStep(t) == t.(retired := t.pulled - |t.buf|, worker := PubDone)
  {
  }

  lemma ReportHeading(s: Sys, plan: Plan, t: Sys, p: seq<u8>, m: nat)
    requires Inv(t) && t.worker.PubRetired? && Tracks(s, t, p, m) && plan.Pipelined? && p <= plan.taken
    requires Heading(s, plan, t, m)
    ensures var u := ReportStep(t);
            Heading(s, plan, u, m) || (u.retired >= Needs(s, plan) && DrivenTo(s, plan) == m)
  {
    hide *;
    Longer(s, t, p, m);
    AtRetire(s, plan, t, m);
    StagedIsLeftover(s, plan, t, p, m);
    FreePullFits(t);
    Retires(t);
    var d := Data(s) + plan.taken;
    if t.pulled - |t.buf| >= Needs(s, plan) {
      DrivenStops(s.g, d, Pos(s), Needs(s, plan), m);
    } else {
      DrivenGoesOn(s.g, d, Pos(s), Needs(s, plan), m);
      HeadsOn(s, plan, ReportStep(t), m);
    }
  }

  lemma AtRetire(s: Sys, plan: Plan, t: Sys, m: nat)
    requires Shape(s) && plan.Pipelined? && t.worker.PubRetired? && Heading(s, plan, t, m)
    ensures t.retired < Needs(s, plan) && t.pulled == Pos(s) + m
    ensures DrivenTo(s, plan) == Driven(s.g, Data(s) + plan.taken, Pos(s), Needs(s, plan), m)
  {
    hide Data, FreePull, DrivenTo, Driven;
  }

  lemma HeadsOn(s: Sys, plan: Plan, u: Sys, m: nat)
    requires Shape(s) && plan.Pipelined? && u.worker.PubDone? && u.retired < Needs(s, plan) && u.pulled == Pos(s) + m
    requires m + FreePull(|u.buf|, u.pulled) >= 0
    requires DrivenTo(s, plan)
             == Driven(s.g, Data(s) + plan.taken, Pos(s), Needs(s, plan), m + FreePull(|u.buf|, u.pulled))
    ensures Heading(s, plan, u, m)
  {
    hide Data, FreePull, DrivenTo, Driven;
  }

  lemma PullHeading(s: Sys, plan: Plan, t: Sys, m: nat)
    requires Inv(t) && t.worker.Pull? && Shape(s) && plan.Pipelined? && Heading(s, plan, t, m)
    ensures PullOk(t) && Heading(s, plan, PullStep(t), m)
  {
    hide Inv, Data, PullSize, FreePull, DrivenTo, Driven, PullOk, PullStep, Shape;
    PulledTo(t);
  }

  lemma PulledTo(t: Sys)
    requires Inv(t) && t.worker.Pull?
    ensures PullOk(t)
    ensures var u := PullStep(t);
            && u.worker.Decode? && u.retired == t.retired && u.pulled == t.pulled + PullSize(|t.buf|, t.pulled, t.worker.seen)
            && u.pulled >= t.pulled
  {
    hide Shape, Guarded, Flow, Mode, Carried, FencesAhead, Published, Wakes, PullSize;
    PullFits(t);
  }

  lemma DecodeHeading(s: Sys, plan: Plan, t: Sys, m: nat, n: nat)
    requires t.worker.Decode? && Shape(s) && plan.Pipelined? && Heading(s, plan, t, m) && n == t.pulled - Pos(s)
    ensures Heading(s, plan, DecodeStep(t), n)
  {
    hide Data, Run, Leftover, FreePull, PullSize, DrivenTo, Driven;
  }

  /** Neither about to pull, nor holding pulled bytes. */
  predicate BetweenPulls(w: Worker) {
    !w.Decode? && !w.PubRetired? && !w.Pull?
  }

  lemma FrameHeading(s: Sys, plan: Plan, t: Sys, u: Sys, m: nat)
    requires Shape(s) && plan.Pipelined? && Heading(s, plan, t, m)
    requires u.retired == t.retired && u.pulled == t.pulled && u.buf == t.buf
    requires u.worker == t.worker || (BetweenPulls(u.worker) && BetweenPulls(t.worker))
    ensures Heading(s, plan, u, m)
  {
    hide Data, FreePull, PullSize, DrivenTo, Driven;
  }

  lemma TopHeading(s: Sys, plan: Plan, t: Sys, m: nat)
    requires Inv(t) && t.worker.Top? && Shape(s) && plan.Pipelined? && Heading(s, plan, t, m)
    requires |plan.taken| <= BUDGET + CHUNK && t.produced >= s.produced
    ensures Heading(s, plan, TopStep(t), m)
  {
    PressedPull(s, plan, t);
    hide Inv, Data, FreePull, PullSize, DrivenTo, Driven;
  }

  lemma ReportBetween(t: Sys)
    requires t.worker.PubDone? || t.worker.Notify? || t.worker.WakeCpu?
    ensures var u := ReportStep(t); u.retired == t.retired && u.pulled == t.pulled && u.buf == t.buf && BetweenPulls(u.worker)
  {
  }

  lemma ParkBetween(t: Sys)
    requires Idling(t.worker)
    ensures var u := ParkStep(t); u.retired == t.retired && u.pulled == t.pulled && u.buf == t.buf && BetweenPulls(u.worker)
  {
    hide ParkNext;
  }

  /** A step of the worker: it is still on its way, or has just arrived. */
  lemma WorkHeading(s: Sys, plan: Plan, t: Sys, p: seq<u8>, m: nat, n: nat)
    requires Inv(t) && WorkerEnabled(t) && Tracks(s, t, p, m) && plan.Pipelined? && p <= plan.taken
    requires |plan.taken| <= BUDGET + CHUNK && Heading(s, plan, t, m)
    requires n == if t.worker.Decode? then t.pulled - Pos(s) else m
    ensures Shape(s)
    ensures var u := WorkerStep(t);
            Heading(s, plan, u, n) || (u.retired >= Needs(s, plan) && DrivenTo(s, plan) == n)
  {
    Longer(s, t, p, m);
    hide Inv, Heading, Data, Tracks, PullStep, DecodeStep, ReportStep, ParkStep, TopStep, DrivenTo;
    match t.worker
    case Top => TopHeading(s, plan, t, m);
    case Pull(_) => PullHeading(s, plan, t, m);
    case Decode => DecodeHeading(s, plan, t, m, n);
    case PubRetired => ReportHeading(s, plan, t, p, m);
    case PubDone => ReportBetween(t); FrameHeading(s, plan, t, WorkerStep(t), m);
    case Notify => ReportBetween(t); FrameHeading(s, plan, t, WorkerStep(t), m);
    case WakeCpu => ReportBetween(t); FrameHeading(s, plan, t, WorkerStep(t), m);
    case LoadEpoch => ParkBetween(t); FrameHeading(s, plan, t, WorkerStep(t), m);
    case Spin(_) => ParkBetween(t); FrameHeading(s, plan, t, WorkerStep(t), m);
    case Park(_) => ParkBetween(t); FrameHeading(s, plan, t, WorkerStep(t), m);
    case Comparing(_) => ParkBetween(t); FrameHeading(s, plan, t, WorkerStep(t), m);
    case Unpark => ParkBetween(t); FrameHeading(s, plan, t, WorkerStep(t), m);
    case Reload => ParkBetween(t); FrameHeading(s, plan, t, WorkerStep(t), m);
  }

  lemma Longer(s: Sys, t: Sys, p: seq<u8>, m: nat)
    requires Tracks(s, t, p, m)
    ensures Shape(s) && t.produced == s.produced + |p|
  {
    hide Data, Run, Leftover;
  }

  /** The CPU leaves the worker where it is, but for waking it. */
  lemma CpuLeavesWorker(t: Sys)
    requires CpuEnabled(t) && !t.cpu.Sync?
    ensures var u := CpuStep(t);
            && u.retired == t.retired && u.pulled == t.pulled && u.buf == t.buf
            && (u.worker == t.worker || (BetweenPulls(u.worker) && BetweenPulls(t.worker)))
  {
    CpuLeavesStaging(t);
    CpuLeavesRetired(t);
    WakesOnly(t);
  }

  lemma WakesOnly(t: Sys)
    requires CpuEnabled(t) && !t.cpu.Sync?
    ensures var u := CpuStep(t); u.worker == t.worker || (BetweenPulls(u.worker) && BetweenPulls(t.worker))
  {
    hide BetweenPulls, CopyOk, HeadStep, WaitStep, CopyStep, PublishStep, HandshakeStep, AccountStep, SettleStep, ResumeStep;
    if t.cpu.Waiting? {
      WaitStepLeavesWork(t);
    } else if t.cpu.Head? {
      HeadLeavesWorker(t);
    } else if t.cpu.Bump? || t.cpu.WakeCheck? || t.cpu.WakeCall? {
      HandWakes(t);
    } else {
      RestLeavesWorker(t);
    }
  }

  lemma RestLeavesWorker(t: Sys)
    ensures t.cpu.Copy? && CopyOk(t) ==> CopyStep(t).worker == t.worker
    ensures t.cpu.Publish? ==> PublishStep(t).worker == t.worker
    ensures t.cpu.Account? ==> AccountStep(t).worker == t.worker
    ensures t.cpu.Settled? ==> SettleStep(t).worker == t.worker
    ensures t.cpu.Resume? ==> ResumeStep(t).worker == t.worker
  {
    hide CanTake, ChunkAt, TakeChunk, Overwrite, CanResume;
  }

  lemma CpuLeavesStaging(t: Sys)
    requires CpuEnabled(t) && !t.cpu.Sync?
    ensures CpuStep(t).pulled == t.pulled && CpuStep(t).buf == t.buf
  {
    if !t.cpu.Copy? && !t.cpu.Publish? {
      hide CpuStep, CpuEnabled;
      CpuMovesNothing(t);
    } else {
      hide CopyOk, Overwrite, ChunkAt, CanTake;
    }
  }

  lemma HandWakes(t: Sys)
    requires t.cpu.Bump? || t.cpu.WakeCheck? || t.cpu.WakeCall?
    ensures var u := HandshakeStep(t); u.worker == t.worker || (BetweenPulls(u.worker) && BetweenPulls(t.worker))
  {
  }

  lemma HeadLeavesWorker(t: Sys)
    requires t.cpu.Head?
    ensures HeadStep(t).worker == t.worker
  {
    hide CanTake, ChunkAt, Scan, AfterLoop;
  }

  // ---- the last chunk -----------------------------------------------------

  /** In a pressed tick the worker is on its way or has arrived, and when the last
      chunk has found space it has arrived. */
  ghost predicate OnTheWay(s: Sys, plan: Plan, t: Sys, m: nat)
    requires Shape(s) && plan.Pipelined?
  {
    && (DrivenTo(s, plan) <= m || Heading(s, plan, t, m))
    && (t.produced + (if t.cpu.Copy? || t.cpu.Publish? then CHUNK else 0) >= s.produced + |plan.taken| ==>
          DrivenTo(s, plan) <= m)
  }

  lemma HeadingBehind(s: Sys, plan: Plan, t: Sys, m: nat)
    requires Shape(s) && plan.Pipelined? && Heading(s, plan, t, m)
    ensures t.retired < Needs(s, plan)
  {
    hide Data, FreePull, PullSize, DrivenTo, Driven;
  }

  lemma WorkOnTheWay(s: Sys, plan: Plan, t: Sys, p: seq<u8>, m: nat, n: nat)
    requires Inv(t) && WorkerEnabled(t) && Tracks(s, t, p, m) && plan.Pipelined? && p <= plan.taken
    requires |plan.taken| <= BUDGET + CHUNK && Shape(s) && OnTheWay(s, plan, t, m)
    requires n == if t.worker.Decode? then t.pulled - Pos(s) else m
    requires n >= m
    ensures OnTheWay(s, plan, WorkerStep(t), n)
  {
    WorkLeavesCpu(t);
    hide Inv, Tracks, Heading, DrivenTo, WorkerStep, WorkerEnabled;
    if DrivenTo(s, plan) > m {
      WorkHeading(s, plan, t, p, m, n);
    }
  }

  lemma PlaceOnTheWay(t: Sys)
    requires CpuEnabled(t) && !t.failed && !t.cpu.Sync?
    ensures var u := CpuStep(t);
            u.produced + (if u.cpu.Copy? || u.cpu.Publish? then CHUNK else 0)
            == t.produced + if t.cpu.Copy? || t.cpu.Publish? then CHUNK
                            else if u.cpu.Copy? then CHUNK else 0
    ensures CpuStep(t).cpu.Copy? ==> t.cpu.Waiting? && t.cpu.goal.Space? && Served(t, t.cpu.goal)
  {
    hide CopyOk, Overwrite, ChunkAt, TakeChunk, CanTake, HeadStep, WaitStep, SyncStep, HandshakeStep, Served;
    if t.cpu.Waiting? {
      WaitGoes(t);
    } else if t.cpu.Head? {
      HeadMovesNothing(t);
      HeadGoes(t);
    } else if t.cpu.Bump? || t.cpu.WakeCheck? || t.cpu.WakeCall? {
      HandGoes(t);
    }
  }

  lemma WaitGoes(t: Sys)
    requires t.cpu.Waiting? && !t.cpu.stage.Asleep? && !t.failed
    ensures WaitStep(t).produced == t.produced && !WaitStep(t).cpu.Publish?
    ensures WaitStep(t).cpu.Copy? ==> t.cpu.goal.Space? && Served(t, t.cpu.goal)
  {
    hide Served, WaitStep;
    WaitIs(t);
  }

  lemma HeadGoes(t: Sys)
    requires t.cpu.Head?
    ensures HeadStep(t).cpu.Waiting? || HeadStep(t).cpu.Settled?
  {
    hide CanTake, ChunkAt, Scan;
  }

  lemma HandGoes(t: Sys)
    requires t.cpu.Bump? || t.cpu.WakeCheck? || t.cpu.WakeCall?
    ensures Pushed(HandshakeStep(t).cpu) && HandshakeStep(t).produced == t.produced
  {
  }

  lemma CpuOnTheWay(s: Sys, plan: Plan, t: Sys, m: nat)
    requires CpuEnabled(t) && !t.failed && !t.cpu.Sync? && plan.Pipelined? && Shape(s) && OnTheWay(s, plan, t, m)
    ensures OnTheWay(s, plan, CpuStep(t), m)
  {
    PlaceOnTheWay(t);
    CpuLeavesWorker(t);
    hide Heading, DrivenTo, CpuStep, CpuEnabled;
    if DrivenTo(s, plan) > m {
      FrameHeading(s, plan, t, CpuStep(t), m);
      HeadingBehind(s, plan, t, m);
    }
  }

  // ---- where it begins ----------------------------------------------------

  /** Handed over before the tick, as far as it matters. */
  function Already(s: Sys): nat {
    if s.worker.Decode? then 0 else |s.buf|
  }

  lemma TrackStaged(s: Sys, t: Sys)
    requires Shape(s) && Shape(t) && SameStream(s, t) && CommandSize(s.g.cp, s.buf) == 0
    ensures Tracks(s, t, [], |s.buf|)
  {
    hide Slice, CommandSize;
    PartialFacts(s.g, s.buf, 0);
    SameData(s, t);
    var d := Data(s) + [];
    assert d == Data(s) && d[..|s.buf|] == s.buf;
    assert s.buf + d[|s.buf|..] == d;
  }

  lemma StartsOnTheWay(s: Sys, plan: Plan, t: Sys)
    requires Inv(s) && Shape(s) && Pressed(s, plan) && SameStream(s, t) && t.retired == s.retired && t.worker == s.worker
    requires !t.cpu.Copy? && !t.cpu.Publish?
    ensures Heading(s, plan, t, Already(s)) && OnTheWay(s, plan, t, Already(s))
  {
    hide Inv, Data, FreePull, PullSize, Driven, Shape;
    PullsForward(s);
  }

  lemma PullsForward(s: Sys)
    requires Inv(s)
    ensures BetweenPulls(s.worker) ==> FreePull(|s.buf|, s.pulled) >= 0
    ensures s.worker.Pull? ==> PullSize(|s.buf|, s.pulled, s.worker.seen) > 0
  {
    if s.worker.Pull? {
      PullFits(s);
    } else if BetweenPulls(s.worker) {
      FreePullForward(|s.buf|, s.pulled);
      ShapeHere(s);
    }
  }

  lemma FreePullForward(staged: nat, pulled: int)
    requires staged <= STAGING
    ensures FreePull(staged, pulled) >= 0
  {
  }
}
