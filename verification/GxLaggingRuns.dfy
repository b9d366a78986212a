/** The schedules in which the pixel engine lags: the worker comes no further
    than it must, and then stands still while the CPU finishes the tick. */
module GxLaggingRuns {
  import opened Bytes
  import opened GxDecode
  import opened GxStream
  import opened GxScanner
  import opened CommandFifo
  import opened GxSync
  import opened GxPipeline
  import opened GxFlow
  import opened GxPipelineInv
  import opened GxPipelineSteps
  import opened GxPipelineRefines
  import opened GxPipelineTheorems
  import opened GxPipelineLive
  import opened GxTickPlan
  import opened GxRingPressure
  import opened GxUnsafeResume
  import opened GxDisplayLists
  import opened GxListLag

  // ---- the CPU alone ------------------------------------------------------

  /** Somewhere in a tick that follows a pipelined plan, at the test of a wait if
      in one. */
  ghost predicate Going(s: Sys, plan: Plan, t: Sys, p: seq<u8>, m: nat) {
    Inv(t) && UnderWay(s, plan, t, p, m) && plan.Pipelined? && (t.cpu.Waiting? ==> t.cpu.stage.Check?)
  }

  /** What is retired already serves every wait of the tick. */
  predicate Unhindered(s: Sys, plan: Plan, t: Sys)
    requires plan.Pipelined?
  {
    (plan.taken != [] ==> Needs(s, plan) <= t.retired) && (plan.fence != 0 ==> plan.fence <= t.retired)
  }

  lemma ChunkInHand(plan: Plan, t: Sys, p: seq<u8>)
    requires Shape(t) && Guarded(t) && OnPlan(plan, t, p) && plan.Pipelined? && Pushing(t.cpu)
    ensures |plan.taken| >= |p| + CHUNK
  {
    hide Slice, CanTake, ChunkAt, PlanFrom, TakeChunk;
  }

  lemma WaitsOf(plan: Plan, t: Sys, p: seq<u8>)
    requires Shape(t) && Guarded(t) && OnPlan(plan, t, p) && plan.Pipelined? && t.cpu.Waiting?
    ensures t.cpu.goal.Space? || (t.cpu.goal.Fenced? && t.cpu.goal.fence == plan.fence != 0)
  {
    hide Slice, CanTake, ChunkAt, PlanFrom, TakeChunk;
  }

  lemma NoWaiting(s: Sys, plan: Plan, t: Sys, p: seq<u8>, m: nat)
    requires Going(s, plan, t, p, m) && Unhindered(s, plan, t) && t.cpu.Waiting?
    ensures Served(t, t.cpu.goal)
  {
    hide Data, Run, Leftover, Flow, Mode, Carried, FencesAhead, Published, Wakes, OnPlan, Guarded;
    WaitsOf(plan, t, p);
    if t.cpu.goal.Space? {
      ChunkInHand(plan, t, p);
    }
  }

  lemma HeadChecked(t: Sys)
    requires t.cpu.Head?
    ensures HeadStep(t).cpu.Waiting? ==> HeadStep(t).cpu.stage.Check?
  {
    hide CanTake, ChunkAt, Scan;
  }

  lemma ServedChecked(t: Sys)
    requires t.cpu.Waiting? && t.cpu.stage.Check? && Served(t, t.cpu.goal) && !t.failed
    ensures WaitStep(t).cpu.Waiting? ==> WaitStep(t).cpu.stage.Check?
  {
    hide Served;
  }

  lemma CpuStaysChecked(t: Sys)
    requires CpuEnabled(t) && !t.failed && (t.cpu.Waiting? ==> t.cpu.stage.Check? && Served(t, t.cpu.goal))
    ensures CpuStep(t).cpu.Waiting? ==> CpuStep(t).cpu.stage.Check?
  {
    hide Overwrite, SyncChunk, SyncGuard, CanTake, ChunkAt, TakeChunk, Served, CopyOk, HeadStep, WaitStep;
    if t.cpu.Head? {
      HeadChecked(t);
    } else if t.cpu.Waiting? {
      ServedChecked(t);
    }
  }

  /** One step of the CPU along the plan. */
  lemma CpuGoes(s: Sys, plan: Plan, t: Sys, p: seq<u8>, m: nat)
    requires Going(s, plan, t, p, m) && !t.cpu.Idle? && (t.cpu.Waiting? ==> Served(t, t.cpu.goal))
    ensures Enabled(t, Cpu) && Nearer(Do(t, Cpu).cpu, t.cpu) && Do(t, Cpu).retired == t.retired
    ensures Going(s, plan, Do(t, Cpu), Pushes(t, p), m)
  {
    CpuAdvances(t);
    Standing(t);
    NotAtHandoff(plan, t, p);
    hide Inv, Tracks, OnPlan, CpuStep, CpuEnabled, WorkerStep, WorkerEnabled, Served, Nearer;
    CpuLeavesRetired(t);
    CpuStaysChecked(t);
    StepKeepsInv(t, Cpu);
    CpuUnderWay(s, plan, t, p, m);
  }

  lemma NotAtHandoff(plan: Plan, t: Sys, p: seq<u8>)
    requires OnPlan(plan, t, p) && plan.Pipelined?
    ensures !AtHandoff(t.cpu)
  {
    hide PlanFrom, TakeChunk, CanTake, ChunkAt;
  }

  lemma NextAlone(s: Sys, plan: Plan, t: Sys, p: seq<u8>, m: nat)
    requires plan.Pipelined? && Going(s, plan, t, p, m) && Unhindered(s, plan, t) && !t.cpu.Idle?
    ensures Enabled(t, Cpu) && Nearer(Do(t, Cpu).cpu, t.cpu)
    ensures Going(s, plan, Do(t, Cpu), Pushes(t, p), m) && Unhindered(s, plan, Do(t, Cpu))
  {
    hide Going, Nearer, CpuStep, WorkerStep, CpuEnabled, WorkerEnabled;
    if t.cpu.Waiting? {
      NoWaiting(s, plan, t, p, m);
    }
    CpuGoes(s, plan, t, p, m);
  }

  /** The worker stands still and the CPU returns from the tick. */
  lemma {:induction false} CpuAlone(s: Sys, plan: Plan, t: Sys, p: seq<u8>, m: nat) returns (ls: seq<Label>, q: seq<u8>)
    requires plan.Pipelined? && Going(s, plan, t, p, m) && Unhindered(s, plan, t)
    ensures IsRun(t, ls) && AllInternal(ls) && After(t, ls).cpu.Idle?
    ensures Going(s, plan, After(t, ls), q, m)
    decreases Phase(t.cpu), Amount(t.cpu)
  {
    hide Going, Unhindered, Do, Enabled, Phase, Amount;
    ls, q := [], p;
    if !t.cpu.Idle? {
      NextAlone(s, plan, t, p, m);
      ls, q := CpuAlone(s, plan, Do(t, Cpu), Pushes(t, p), m);
      RunCons(t, Cpu, ls);
      ls := [Cpu] + ls;
    }
  }

  // ---- the worker as far as it must ---------------------------------------

  /** At the top of the loop the worker has a step until it has caught up. */
  lemma WorkGoes(s: Sys, plan: Plan, t: Sys, p: seq<u8>, m: nat) returns (n: nat)
    requires Going(s, plan, t, p, m) && t.cpu.Head? && !CaughtUp(t)
    ensures Enabled(t, Work) && 0 <= WorkLeft(Do(t, Work)) < WorkLeft(t)
    ensures Going(s, plan, Do(t, Work), p, n) && SameScan(t, Do(t, Work)) && Do(t, Work).cpu == t.cpu
    ensures n == if t.worker.Decode? then t.pulled - Pos(s) else m
  {
    hide Inv, UnderWay, CaughtUp, WorkerStep, WorkerEnabled, WorkLeft;
    UnservedWorkerEnabled(t);
    WorkerAdvances(t);
    WorkLeavesCpu(t);
    StepKeepsInv(t, Work);
    n := WorkUnderWay(s, plan, t, p, m);
  }

  lemma {:induction false} CatchUp(s: Sys, plan: Plan, t: Sys, p: seq<u8>, m: nat) returns (ls: seq<Label>, n: nat)
    requires Going(s, plan, t, p, m) && t.cpu.Head?
    ensures IsRun(t, ls) && AllInternal(ls)
    ensures var u := After(t, ls);
            Going(s, plan, u, p, n) && u.cpu == t.cpu && u.produced == t.produced && CaughtUp(u)
    decreases WorkLeft(t)
  {
    hide Going, CaughtUp, Do, Enabled, WorkLeft;
    ls, n := [], m;
    if !CaughtUp(t) {
      n := WorkGoes(s, plan, t, p, m);
      ls, n := CatchUp(s, plan, Do(t, Work), p, n);
      RunCons(t, Work, ls);
      ls := [Work] + ls;
    }
  }

  /** Room for the next chunk, counted from what is retired. */
  predicate Close(t: Sys) {
    t.retired >= t.produced - CARRY - if Pushed(t.cpu) then CHUNK else 0
  }

  lemma CaughtUpIsClose(t: Sys)
    requires Inv(t) && CaughtUp(t) && t.cpu.Head?
    ensures Close(t)
  {
    hide Shape, Guarded, Flow, Mode, Carried, FencesAhead, WorkerSleeps, CpuSleeps;
  }

  lemma CloseServes(plan: Plan, t: Sys, p: seq<u8>)
    requires Close(t) && t.cpu.Waiting? && t.cpu.goal.Space?
    ensures Served(t, t.cpu.goal)
  {
  }

  /** At the loop head the plan's last fence is the last one so far, or ends
      behind everything published. */
  lemma HeadFence(plan: Plan, t: Sys, p: seq<u8>)
    requires Inv(t) && t.cpu.Head? && OnPlan(plan, t, p) && plan.Pipelined?
    ensures plan.fence == t.cpu.fence || plan.fence > t.produced
    ensures plan.fence > t.produced ==> HeadStep(t).cpu.Waiting? && HeadStep(t).cpu.goal.Space?
  {
    TailIs(plan, t, p);
    HeadKnows(t);
    hide Inv, OnPlan, PlanFrom, CanTake, ChunkAt, TakeChunk, Scan, FenceEnds, Leftover, Data, Shape, Sizable;
    if t.cpu.drained < BUDGET && CanTake(t.arch) {
      PlanPushes(t);
      HeadSizable(t, ChunkAt(t.arch));
      PlanFacts(t.g, Data(t), Pos(t), t.carry, t.scanPos, t.arch, t.cpu.drained, t.cpu.fence);
    } else {
      PlanEnds(t);
    }
  }

  lemma TailIs(plan: Plan, t: Sys, p: seq<u8>)
    requires t.cpu.Head? && OnPlan(plan, t, p) && plan.Pipelined?
    ensures var tail := PlanFrom(t.carry, t.scanPos, t.arch, t.cpu.drained, t.cpu.fence);
            tail.Pipelined? && tail.fence == plan.fence
  {
    hide PlanFrom;
  }

  lemma PlanEnds(t: Sys)
    requires t.cpu.Head? && !(t.cpu.drained < BUDGET && CanTake(t.arch))
    ensures PlanFrom(t.carry, t.scanPos, t.arch, t.cpu.drained, t.cpu.fence) == Pipelined([], t.cpu.fence)
  {
    hide CanTake;
  }

  lemma PlanPushes(t: Sys)
    requires t.cpu.Head? && t.cpu.drained < BUDGET && CanTake(t.arch)
    requires PlanFrom(t.carry, t.scanPos, t.arch, t.cpu.drained, t.cpu.fence).Pipelined?
    ensures Sizable(t.carry + ChunkAt(t.arch))
    ensures HeadStep(t).cpu.Waiting? && HeadStep(t).cpu.goal.Space?
  {
    hide CanTake, ChunkAt, TakeChunk, Scan;
  }

  lemma HeadKnows(t: Sys)
    requires Inv(t) && t.cpu.Head?
    ensures Shape(t) && t.scanPos == t.produced - |t.carry| && Pos(t) + |Data(t)| == t.produced >= 0
    ensures t.cpu.fence <= t.produced
  {
    hide Slice, CommandSize, Sizable, NextFences, Rest, Guarded, Flow, Published, Wakes;
  }

  lemma CpuInLoop(t: Sys)
    requires CpuEnabled(t) && InLoop(t.cpu) && !t.cpu.Head? && !t.failed
    requires t.cpu.Waiting? ==> t.cpu.stage.Check? && Served(t, t.cpu.goal)
    ensures InLoop(CpuStep(t).cpu)
    ensures CpuStep(t).produced == t.produced + if t.cpu.Publish? then CHUNK else 0
    ensures Pushing(CpuStep(t).cpu) <==> Pushing(t.cpu) && !t.cpu.Publish?
    ensures Pushed(CpuStep(t).cpu) <==> t.cpu.Publish? || (Pushed(t.cpu) && !t.cpu.Account?)
  {
    hide Served, CopyOk, Overwrite, CanTake, ChunkAt, TakeChunk, HeadStep, SyncStep, WaitStep, HandshakeStep;
    if t.cpu.Waiting? {
      WaitIs(t);
    } else if t.cpu.Bump? || t.cpu.WakeCheck? || t.cpu.WakeCall? {
      HandInLoop(t);
    }
  }

  lemma HandInLoop(t: Sys)
    requires t.cpu.Bump? || t.cpu.WakeCheck? || t.cpu.WakeCall?
    ensures Pushed(HandshakeStep(t).cpu) && HandshakeStep(t).produced == t.produced
  {
  }

  /** The CPU pushes up to the chunk in which the last fence ends, the worker
      catching up at each loop head, and no further. */
  lemma {:induction false} ToFence(s: Sys, plan: Plan, t: Sys, p: seq<u8>, m: nat)
    returns (ls: seq<Label>, q: seq<u8>, n: nat)
    requires plan.Pipelined? && Going(s, plan, t, p, m) && InLoop(t.cpu) && plan.fence > 0
    requires t.produced + (if Pushing(t.cpu) then CHUNK else 0) <= ChunkEnd(plan.fence)
    requires t.cpu.Head? || Close(t)
    ensures IsRun(t, ls) && AllInternal(ls)
    ensures var u := After(t, ls);
            Going(s, plan, u, q, n) && u.cpu.Head? && CaughtUp(u) && u.produced == ChunkEnd(plan.fence)
    decreases Phase(t.cpu), Amount(t.cpu)
  {
    hide Going, Inv, Do, Enabled, Phase, Amount, Close, CaughtUp, ChunkEnd, InLoop, Pushing, IsRun, After;
    var a: seq<Label>;
    a, n := WorkerFirst(s, plan, t, p, m);
    q := p;
    var u := After(t, a);
    if u.cpu.Head? && u.produced == ChunkEnd(plan.fence) {
      ls := a;
    } else {
      NextInLoop(s, plan, u, q, n);
      var rest;
      rest, q, n := ToFence(s, plan, Do(u, Cpu), Pushes(u, q), n);
      RunCons(u, Cpu, rest);
      RunsCompose(t, a, [Cpu] + rest);
      ls := a + ([Cpu] + rest);
    }
  }

  lemma WorkerFirst(s: Sys, plan: Plan, t: Sys, p: seq<u8>, m: nat) returns (a: seq<Label>, n: nat)
    requires Going(s, plan, t, p, m) && (t.cpu.Head? || Close(t))
    ensures IsRun(t, a) && AllInternal(a)
    ensures var u := After(t, a);
            Going(s, plan, u, p, n) && u.cpu == t.cpu && u.produced == t.produced && Close(u) && (u.cpu.Head? ==> CaughtUp(u))
  {
    a, n := [], m;
    if t.cpu.Head? {
      a, n := CatchUp(s, plan, t, p, m);
      hide IsRun, After, Inv, UnderWay;
      CaughtUpIsClose(After(t, a));
    }
  }

  lemma NextInLoop(s: Sys, plan: Plan, u: Sys, q: seq<u8>, n: nat)
    requires Going(s, plan, u, q, n) && InLoop(u.cpu) && plan.fence > 0 && Close(u)
    requires u.produced + (if Pushing(u.cpu) then CHUNK else 0) <= ChunkEnd(plan.fence)
    requires u.cpu.Head? ==> u.produced != ChunkEnd(plan.fence)
    ensures Enabled(u, Cpu) && Nearer(Do(u, Cpu).cpu, u.cpu)
    ensures var v := Do(u, Cpu);
            && Going(s, plan, v, Pushes(u, q), n) && InLoop(v.cpu) && (v.cpu.Head? || Close(v))
            && v.produced + (if Pushing(v.cpu) then CHUNK else 0) <= ChunkEnd(plan.fence)
  {
    if u.cpu.Waiting? {
      CloseServes(plan, u, q);
    }
    CpuGoes(s, plan, u, q, n);
    if u.cpu.Head? {
      HeadBeforeFence(s, plan, u, q, n);
    } else {
      Standing(u);
      hide Inv, UnderWay, CpuStep, CpuEnabled, ChunkEnd, Served;
      CpuInLoop(u);
    }
  }

  lemma HeadBeforeFence(s: Sys, plan: Plan, u: Sys, q: seq<u8>, n: nat)
    requires Going(s, plan, u, q, n) && u.cpu.Head? && u.produced < ChunkEnd(plan.fence)
    ensures var v := HeadStep(u);
            Pushing(v.cpu) && v.produced == u.produced && v.produced + CHUNK <= ChunkEnd(plan.fence)
  {
    hide Inv, Tracks, OnPlan, HeadStep, ChunkEnd;
    HeadFence(plan, u, q);
    HeadMovesNothing(u);
    ChunkEndIs(plan.fence);
    Aligned(u);
    AlignedBound(u.produced + CHUNK, u.produced + 1, ChunkEnd(plan.fence));
    BeforeChunkEnd(u.produced, plan.fence);
  }

  lemma BeforeChunkEnd(produced: int, fence: int)
    requires produced % CHUNK == 0 && produced < ChunkEnd(fence)
    ensures produced < fence
  {
  }

  lemma Aligned(u: Sys)
    requires Inv(u)
    ensures u.produced % CHUNK == 0
  {
  }

  /** Caught up at the loop head, the last fence so far is retired. */
  lemma FenceRetired(u: Sys)
    requires Inv(u) && u.cpu.Head? && CaughtUp(u)
    ensures u.cpu.fence != 0 ==> u.cpu.fence <= u.retired
  {
    hide Slice, CommandSize, Sizable, NextFences, Guarded, Mode, Carried, Wakes;
    QuietBytes(u);
  }

  // ---- a tick that lags ---------------------------------------------------

  /** One call of gcn_gx_tick, to its return, under some schedule. */
  ghost predicate TickRun(s: Sys, ls: seq<Label>) {
    && ls != [] && ls[0] == Tick && AllInternal(ls[1..]) && IsRun(s, ls) && After(s, ls).cpu.Idle?
  }

  lemma BeginGoing(s: Sys)
    requires Inv(s) && s.cpu.Idle? && TickPlan(s).Pipelined? && !s.syncmode
    ensures Shape(s) && Going(s, TickPlan(s), TickStart(s), [], HandedBefore(s))
    ensures var t := TickStart(s); t.produced == s.produced && t.retired == s.retired && (t.cpu.Head? || t.cpu.Idle?)
    ensures TickPlan(s).fence != 0 || TickPlan(s).taken != [] ==> TickStart(s).cpu.Head?
    ensures Pressed(s, TickPlan(s)) ==> Heading(s, TickPlan(s), TickStart(s), HandedBefore(s))
  {
    ShapeHere(s);
    TickBegins(s);
    TickKeepsInv(s);
    TickFields(s);
    hide Inv, UnderWay, PlanFrom, OnTheWay, Heading, Pressed, Shape;
  }

  /** Without a fence, and with room in the ring, the worker need not move. */
  lemma StandStill(s: Sys) returns (ls: seq<Label>, q: seq<u8>)
    requires Inv(s) && s.cpu.Idle? && TickPlan(s).Pipelined? && !s.syncmode
    requires TickPlan(s).fence == 0 && !Pressed(s, TickPlan(s))
    ensures var t := TickStart(s);
            IsRun(t, ls) && AllInternal(ls) && After(t, ls).cpu.Idle? && Going(s, TickPlan(s), After(t, ls), q, 0)
  {
    BeginGoing(s);
    hide Going, TickPlan, TickStart, IsRun, After;
    ls, q := CpuAlone(s, TickPlan(s), TickStart(s), [], 0);
  }

  lemma StillBehind(s: Sys, plan: Plan, t: Sys, m: nat)
    requires Inv(t) && Shape(s) && plan.Pipelined? && Bounded(plan) && Heading(s, plan, t, m) && t.produced >= s.produced
    ensures !CaughtUp(t)
  {
    HeadingBehind(s, plan, t, m);
    hide Inv, Heading, Data;
    if CaughtUp(t) {
      PublishedClose(t);
    }
  }

  /** The worker is on its way to the room the tick needs, or has just made it. */
  ghost predicate Pressing(s: Sys, plan: Plan, t: Sys, m: nat)
    requires Shape(s) && plan.Pipelined?
  {
    && t.cpu.Head? && t.produced >= s.produced
    && (Heading(s, plan, t, m) || (t.retired >= Needs(s, plan) && DrivenTo(s, plan) == m))
  }

  lemma NextPress(s: Sys, plan: Plan, t: Sys, p: seq<u8>, m: nat) returns (n: nat)
    requires Shape(s) && plan.Pipelined? && Bounded(plan) && Going(s, plan, t, p, m) && Pressing(s, plan, t, m)
    requires t.retired < Needs(s, plan)
    ensures Enabled(t, Work) && 0 <= WorkLeft(Do(t, Work)) < WorkLeft(t)
    ensures Going(s, plan, Do(t, Work), p, n) && Pressing(s, plan, Do(t, Work), n)
  {
    hide Heading, DrivenTo, UnderWay, Inv, WorkerStep, CpuStep, CpuEnabled, WorkLeft;
    Tracked(s, plan, t, p, m);
    StillBehind(s, plan, t, m);
    n := WorkGoes(s, plan, t, p, m);
    WorkHeading(s, plan, t, p, m, n);
  }

  /** Pressed for space the worker goes on until that is retired. */
  lemma {:induction false} Press(s: Sys, plan: Plan, t: Sys, p: seq<u8>, m: nat) returns (ls: seq<Label>, n: nat)
    requires Shape(s) && plan.Pipelined? && Bounded(plan) && Going(s, plan, t, p, m) && Pressing(s, plan, t, m)
    ensures IsRun(t, ls) && AllInternal(ls)
    ensures var u := After(t, ls);
            Going(s, plan, u, p, n) && Pressing(s, plan, u, n) && u.retired >= Needs(s, plan)
    decreases WorkLeft(t)
  {
    hide Going, Pressing, Do, Enabled, WorkLeft, Shape;
    ls, n := [], m;
    if t.retired < Needs(s, plan) {
      n := NextPress(s, plan, t, p, m);
      ls, n := Press(s, plan, Do(t, Work), p, n);
      RunCons(t, Work, ls);
      ls := [Work] + ls;
    }
  }

  lemma RoomMade(s: Sys, plan: Plan, u: Sys, n: nat)
    requires Shape(s) && plan.Pipelined? && Pressing(s, plan, u, n) && u.retired >= Needs(s, plan)
    ensures DrivenTo(s, plan) == n
  {
    hide DrivenTo;
    if Heading(s, plan, u, n) {
      HeadingBehind(s, plan, u, n);
    }
  }

  /** The worker makes the room the tick needs and stops. */
  lemma StopAtRoom(s: Sys) returns (ls: seq<Label>, q: seq<u8>)
    requires Inv(s) && s.cpu.Idle? && TickPlan(s).Pipelined? && !s.syncmode
    requires TickPlan(s).fence == 0 && Pressed(s, TickPlan(s))
    ensures Shape(s)
    ensures var t := TickStart(s);
            && IsRun(t, ls) && AllInternal(ls) && After(t, ls).cpu.Idle?
            && Going(s, TickPlan(s), After(t, ls), q, DrivenTo(s, TickPlan(s)))
  {
    var plan, t := TickPlan(s), TickStart(s);
    BeginGoing(s);
    PlanKnown(s);
    hide Going, TickPlan, TickStart, IsRun, After, Heading, DrivenTo, Shape, Inv;
    var a: seq<Label>, n: nat;
    a, n := Press(s, plan, t, [], HandedBefore(s));
    var u := After(t, a);
    RoomMade(s, plan, u, n);
    var b;
    b, q := CpuAlone(s, plan, u, [], n);
    RunsCompose(t, a, b);
    ls := a + b;
  }

  lemma FenceAtBoundary(s: Sys, plan: Plan, u: Sys, q: seq<u8>, n: nat)
    requires Inv(s) && s.cpu.Idle? && plan == TickPlan(s) && plan.Pipelined? && plan.fence > 0
    requires Going(s, plan, u, q, n) && u.cpu.Head? && CaughtUp(u) && u.produced == ChunkEnd(plan.fence)
    ensures Unhindered(s, plan, u)
    ensures Forced(s, plan) >= 0 && Going(s, plan, u, q, Forced(s, plan))
  {
    hide PlanFrom, Data, Run, Leftover, TickPlan;
    HeadFence(plan, u, q);
    ChunkEndIs(plan.fence);
    FenceRetired(u);
    CaughtUpIsClose(u);
    PlanKnown(s);
    AllHanded(s, plan, u, q, n);
    Grown(s, u, q, n);
  }

  lemma Grown(s: Sys, u: Sys, q: seq<u8>, n: nat)
    requires Tracks(s, u, q, n)
    ensures s.produced <= u.produced
  {
    hide Data, Run, Leftover;
  }

  lemma AllHanded(s: Sys, plan: Plan, u: Sys, q: seq<u8>, n: nat)
    requires Inv(u) && Tracks(s, u, q, n) && CaughtUp(u) && plan.Pipelined? && plan.fence > 0
    requires u.produced == ChunkEnd(plan.fence)
    ensures Forced(s, plan) == |Data(s) + q| && Tracks(s, u, q, |Data(s) + q|)
  {
    FullyDecoded(u);
    hide Inv, Run, Leftover, CommandSize;
    BytesUnderWay(s);
    GrownBy(s, u, q, n);
    hide Data;
    TrackAll(s, u, q, n);
  }

  lemma GrownBy(s: Sys, u: Sys, q: seq<u8>, n: nat)
    requires Tracks(s, u, q, n)
    ensures Shape(s) && u.produced == s.produced + |q|
  {
    hide Data, Run, Leftover;
  }

  lemma FullyDecoded(u: Sys)
    requires Inv(u) && CaughtUp(u)
    ensures u.produced == u.pulled && CommandSize(u.g.cp, u.buf) == 0
  {
    hide Shape, Guarded, Mode, Carried, FencesAhead, Published, Wakes, CommandSize;
  }

  /** With a fence the worker comes as far as its chunk and no further. */
  lemma StopAtFence(s: Sys) returns (ls: seq<Label>, q: seq<u8>)
    requires Inv(s) && s.cpu.Idle? && TickPlan(s).Pipelined? && !s.syncmode && TickPlan(s).fence > s.produced >= 0
    ensures Forced(s, TickPlan(s)) >= 0
    ensures var t := TickStart(s);
            && IsRun(t, ls) && AllInternal(ls) && After(t, ls).cpu.Idle?
            && Going(s, TickPlan(s), After(t, ls), q, Forced(s, TickPlan(s)))
  {
    hide Going, TickPlan, TickStart, IsRun, After, ChunkEnd, Forced, InLoop, Pushing, Close, Inv, Shape, CaughtUp, Unhindered;
    var plan, t := TickPlan(s), TickStart(s);
    FenceAhead(s);
    var a: seq<Label>, n: nat;
    a, q, n := ToFence(s, plan, t, [], HandedBefore(s));
    var u := After(t, a);
    FenceAtBoundary(s, plan, u, q, n);
    var b;
    b, q := CpuAlone(s, plan, u, q, Forced(s, plan));
    RunsCompose(t, a, b);
    ls := a + b;
  }

  lemma FenceAhead(s: Sys)
    requires Inv(s) && s.cpu.Idle? && TickPlan(s).Pipelined? && !s.syncmode && TickPlan(s).fence > s.produced >= 0
    ensures var plan, t := TickPlan(s), TickStart(s);
            && Shape(s) && Going(s, plan, t, [], HandedBefore(s)) && InLoop(t.cpu) && t.cpu.Head?
            && t.produced + (if Pushing(t.cpu) then CHUNK else 0) <= ChunkEnd(plan.fence)
  {
    BeginGoing(s);
    ChunkEndIs(TickPlan(s).fence);
    hide Going, TickPlan, TickStart, ChunkEnd;
  }

  lemma IdleTells(s: Sys, v: Sys, q: seq<u8>)
    requires Shape(s) && TickPlan(s).Pipelined? && ListsLag(s) && v.cpu.Idle?
    requires Going(s, TickPlan(s), v, q, Forced(s, TickPlan(s)))
    ensures Shape(v) && Run(v.g, Data(v)).g.pe != v.g.pe
  {
    var plan := TickPlan(s);
    var k := Forced(s, plan);
    IdleOnPlan(plan, v, q);
    TrackedData(s, v, q, k);
    ShapeHere(v);
    TopLevel(s);
    hide Inv, Tracks, OnPlan, Data, Leftover, Run, CallsTell, TickPlan, Forced, Shape;
    IdleSays(v);
  }

  lemma QuietLags(s: Sys)
    requires Inv(s) && s.cpu.Idle? && s.syncmode && Shape(s)
    ensures !ListsLag(s)
  {
    SyncPartial(s);
    if TickPlan(s).Pipelined? {
      hide PlanFrom, Run, Leftover, CallsTell;
      assert TickPlan(s) == Pipelined([], 0);
      var d := Data(s) + [];
      assert d == Data(s) && d[0..] == d;
      RunNothing(s.g, d);
      assert Leftover(s.g, d[..0]) == [] by { NoLeftover(s.g, d); }
      assert [] + d == d;
    }
  }

  lemma NoLeftover(g: Gx, d: seq<u8>)
    ensures Leftover(g, d[..0]) == []
  {
    assert d[..0] == [];
  }

  lemma SyncPartial(s: Sys)
    requires Inv(s) && s.syncmode && Shape(s)
    ensures !CallsTell(RegsOf(s.g), s.g.mem, Data(s))
  {
    hide CommandSize, Slice, Stream, Sizable, Guarded, Carried, FencesAhead, Published, Wakes, CallsTell;
    QuietData(s);
    PartialSays(s.g, s.buf);
  }

  /** If some list lags there is a schedule in which it does: the tick returns
      and the pixel engine is still to be told. */
  lemma ListsCanLag(s: Sys) returns (ls: seq<Label>)
    requires Inv(s) && s.cpu.Idle? && Shape(s) && ListsLag(s)
    ensures TickRun(s, ls)
    ensures var v := After(s, ls); Shape(v) && Run(v.g, Data(v)).g.pe != v.g.pe
  {
    if s.syncmode {
      QuietLags(s);
    }
    PlanKnown(s);
    var plan, t := TickPlan(s), TickStart(s);
    var a: seq<Label>, q: seq<u8>;
    hide Inv, Shape, TickPlan, TickStart, ListsLag, Going, IsRun, After, Data, Run, Pressed, DrivenTo, Forced;
    ForcedIs(s, plan);
    if plan.fence == 0 && Pressed(s, plan) {
      a, q := StopAtRoom(s);
    } else if plan.fence == 0 {
      a, q := StandStill(s);
    } else {
      NewFence(s);
      a, q := StopAtFence(s);
    }
    IdleTells(s, After(t, a), q);
    RunCons(s, Tick, a);
    ls := [Tick] + a;
    assert ls[1..] == a;
  }

  lemma NewFence(s: Sys)
    requires Inv(s) && s.cpu.Idle? && Shape(s) && TickPlan(s).Pipelined? && TickPlan(s).fence != 0
    ensures TickPlan(s).fence > s.produced >= 0
  {
    hide Data, TickPlan, Sizable, FenceEnds, CommandSize;
    PlanKnown(s);
    if Sizable(Data(s)) {
      ForcedFacts(s);
    }
  }

  // ---- the theorem --------------------------------------------------------

  lemma TickInternal(s: Sys, ls: seq<Label>)
    requires TickRun(s, ls)
    ensures Enabled(s, Tick) && IsRun(TickStart(s), ls[1..]) && After(s, ls) == After(TickStart(s), ls[1..])
  {
    hide CpuStep, WorkerStep;
  }

  lemma OverSays(v: Sys)
    requires Inv(v) && v.cpu.Idle? && Over(v) && Shape(v)
    ensures Run(v.g, Data(v)).g.pe == v.g.pe
  {
    QuietWhenOver(v);
    hide Inv, CommandSize;
    QuietData(v);
    PartialSays(v.g, v.buf);
  }

  lemma QuietWhenOver(v: Sys)
    requires Inv(v) && Over(v)
    ensures v.pulled == v.produced && CommandSize(v.g.cp, v.buf) == 0
  {
    hide Slice, Stream, Sizable, Guarded, Carried, FencesAhead, Published, Wakes, CommandSize;
  }

  lemma PlanBounded(s: Sys)
    requires Inv(s) && s.cpu.Idle?
    ensures Bounded(TickPlan(s))
  {
    hide Inv, TickPlan, Data, Sizable;
    if TickPlan(s).Pipelined? {
      PlanKnown(s);
    }
  }

  /** After any schedule of the tick the pixel engine lags only if some list was
      known to lag before it. */
  lemma OnlyListsLag(s: Sys, ls: seq<Label>)
    requires Inv(s) && s.cpu.Idle? && TickRun(s, ls)
    ensures var v := After(s, ls);
            Inv(v) && Shape(s) && Shape(v) && (Run(v.g, Data(v)).g.pe != v.g.pe ==> ListsLag(s))
  {
    TickInternal(s, ls);
    TickBegins(s);
    StepKeepsInv(s, Tick);
    ShapeHere(s);
    var v, plan := After(s, ls), TickPlan(s);
    PlanBounded(s);
    hide Inv, Along, Over, TickStart, TickPlan, IsRun, After, Run, Data, Shape, ListsLag;
    var q: seq<u8>, n: nat;
    q, n := RunAlong(s, plan, TickStart(s), [], HandedBefore(s), ls[1..]);
    ShapeHere(v);
    if Over(v) {
      OverSays(v);
    } else if Run(v.g, Data(v)).g.pe != v.g.pe {
      LagHasAList(s, v, q, n);
    }
  }

  lemma TickReached(arch: Arch, g: Gx, ring: seq<u8>, unsafe: bool, before: seq<Label>, s: Sys, ls: seq<Label>)
    requires Reaches(arch, g, ring, unsafe, before, s) && TickRun(s, ls)
    ensures var v := After(s, ls);
            && Inv(v) && Shape(v)
            && SyncAfter(Machine(arch, g, []), before + ls).g.pe == Run(v.g, Data(v)).g.pe
  {
    hide IsRun, After, SyncAfter, Outcome, Inv;
    RunsCompose(Init(arch, g, ring, unsafe), before, ls);
    var v := After(s, ls);
    ReachedFacts(arch, g, ring, unsafe, before + ls, v);
    ShapeHere(v);
    IdleOutcome(v);
  }

  lemma IdleOutcome(v: Sys)
    requires Shape(v) && v.cpu.Idle?
    ensures Outcome(v).g == Run(v.g, Data(v)).g
  {
    hide Run, Leftover, Data, SyncLoop, TakeChunk, CanTake;
  }

  /** NO LIST, NO LAG.  From every reachable state, under every schedule, the
      tick returns with the pixel engine told exactly what the synchronous
      consumer has told it by then, unless a list named by `ListsLag` before the
      tick writes to it. */
  lemma PixelEngineAgrees(arch: Arch, g: Gx, ring: seq<u8>, unsafe: bool, before: seq<Label>, s: Sys, ls: seq<Label>)
    requires Reaches(arch, g, ring, unsafe, before, s) && s.cpu.Idle? && TickRun(s, ls)
    ensures Shape(s)
    ensures !ListsLag(s) ==> After(s, ls).g.pe == SyncAfter(Machine(arch, g, []), before + ls).g.pe
  {
    ReachedFacts(arch, g, ring, unsafe, before, s);
    hide IsRun, After, SyncAfter, Inv, ListsLag, Data, Run, Reaches, TickRun, Outcome, Shape;
    TickReached(arch, g, ring, unsafe, before, s, ls);
    OnlyListsLag(s, ls);
  }

  ghost predicate AgreesAfter(arch: Arch, g: Gx, before: seq<Label>, s: Sys, ls: seq<Label>)
    requires TickRun(s, ls)
  {
    After(s, ls).g.pe == SyncAfter(Machine(arch, g, []), before + ls).g.pe
  }

  /** EXACT CONDITION, told before the tick.  Whatever the schedule, the tick
      returns with the pixel engine told exactly what the synchronous consumer
      has told it, if and only if no list called by a command that ends behind
      the forced bytes, among those under way and those the tick takes, writes
      to it. */
  lemma PixelEngineAgreesIff(arch: Arch, g: Gx, ring: seq<u8>, unsafe: bool, before: seq<Label>, s: Sys)
    requires Reaches(arch, g, ring, unsafe, before, s) && s.cpu.Idle?
    ensures Shape(s)
    ensures (forall ls :: TickRun(s, ls) ==> AgreesAfter(arch, g, before, s, ls)) <==> !ListsLag(s)
  {
    ReachedFacts(arch, g, ring, unsafe, before, s);
    ShapeHere(s);
    hide IsRun, After, SyncAfter, Inv, ListsLag, Data, Run, Reaches, TickRun, Outcome, Shape;
    if ListsLag(s) {
      var ls := ListsCanLag(s);
      TickReached(arch, g, ring, unsafe, before, s, ls);
      assert !AgreesAfter(arch, g, before, s, ls);
    } else {
      forall ls | TickRun(s, ls)
        ensures AgreesAfter(arch, g, before, s, ls)
      {
        PixelEngineAgrees(arch, g, ring, unsafe, before, s, ls);
      }
    }
  }
}
