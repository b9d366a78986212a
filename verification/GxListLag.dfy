/** When a tick returns before the pixel engine has been told everything: the
    exact condition, as it can be told before the tick. */
module GxListLag {
  import opened Bytes
  import opened GxDecode
  import opened GxStream
  import opened GxScanner
  import opened CommandFifo
  import opened GxSync
  import opened GxPipeline
  import opened GxFlow
  import opened GxPipelineInv
  import opened GxPipelineSteps
  import opened GxPipelineRefines
  import opened GxPipelineTheorems
  import opened GxPipelineLive
  import opened GxTickPlan
  import opened GxRingPressure
  import opened GxUnsafeResume
  import opened GxDisplayLists

  // ---- one tick under any schedule ----------------------------------------

  /** A step of the two threads, as opposed to one of the guest. */
  predicate Internal(l: Label) {
    l.Cpu? || l.Work? || l.Timeout? || l.GiveUp? || l.Spurious?
  }

  predicate AllInternal(ls: seq<Label>) {
    forall i :: 0 <= i < |ls| ==> Internal(ls[i])
  }

  /** Under way to the plan and, if the ring makes the tick wait, through the
      points it drives the worker through. */
  ghost predicate Along(s: Sys, plan: Plan, t: Sys, p: seq<u8>, m: nat) {
    UnderWay(s, plan, t, p, m) && (Pressed(s, plan) ==> Shape(s) && OnTheWay(s, plan, t, m))
  }

  lemma FrontOfPlan(plan: Plan, t: Sys, p: seq<u8>)
    requires OnPlan(plan, t, p) && plan.Pipelined?
    ensures p <= plan.taken
  {
    hide PlanFrom, TakeChunk, CanTake, ChunkAt;
  }

  lemma FrameUnderWay(s: Sys, plan: Plan, t: Sys, u: Sys, p: seq<u8>, m: nat)
    requires UnderWay(s, plan, t, p, m) && SameStream(t, u) && SameScan(t, u)
    ensures UnderWay(s, plan, u, p, m)
  {
    hide OnPlan;
    SameCpuOnPlan(plan, t, u, p);
    hide Data, Run, Leftover;
    SameData(t, u);
    TrackFrame(s, t, u, p, m);
  }

  /** Sleeps that end by themselves, and the worker giving up. */
  lemma RestAlong(s: Sys, plan: Plan, t: Sys, u: Sys, p: seq<u8>, m: nat)
    requires Along(s, plan, t, p, m) && SameStream(t, u) && SameScan(t, u)
    requires u.retired == t.retired && (u.worker == t.worker || (BetweenPulls(u.worker) && BetweenPulls(t.worker)))
    ensures Along(s, plan, u, p, m)
  {
    hide UnderWay, Heading, DrivenTo;
    FrameUnderWay(s, plan, t, u, p, m);
    if Pressed(s, plan) && DrivenTo(s, plan) > m {
      FrameHeading(s, plan, t, u, m);
    }
  }

  lemma CpuUnderWay(s: Sys, plan: Plan, t: Sys, p: seq<u8>, m: nat)
    requires Inv(t) && CpuEnabled(t) && UnderWay(s, plan, t, p, m)
    ensures CpuStep(t).syncmode || UnderWay(s, plan, CpuStep(t), Pushes(t, p), m)
  {
    hide Inv, OnPlan, Tracks, CpuStep, CpuEnabled;
    CpuOnPlan(plan, t, p);
    CpuTracks(s, t, p, m);
  }

  lemma NotSync(s: Sys, plan: Plan, t: Sys, p: seq<u8>, m: nat)
    requires Inv(t) && UnderWay(s, plan, t, p, m)
    ensures !t.failed && !t.cpu.Sync?
  {
    LoopGuards(t);
  }

  lemma CpuAlong(s: Sys, plan: Plan, t: Sys, p: seq<u8>, m: nat)
    requires Inv(t) && CpuEnabled(t) && Along(s, plan, t, p, m)
    ensures CpuStep(t).syncmode || Along(s, plan, CpuStep(t), Pushes(t, p), m)
  {
    hide Inv, UnderWay, OnTheWay, CpuStep, CpuEnabled;
    CpuUnderWay(s, plan, t, p, m);
    NotSync(s, plan, t, p, m);
    if Pressed(s, plan) {
      CpuOnTheWay(s, plan, t, m);
    }
  }

  lemma WorkUnderWay(s: Sys, plan: Plan, t: Sys, p: seq<u8>, m: nat) returns (n: nat)
    requires Inv(t) && WorkerEnabled(t) && UnderWay(s, plan, t, p, m)
    ensures UnderWay(s, plan, WorkerStep(t), p, n)
    ensures n == if t.worker.Decode? then t.pulled - Pos(s) else m
    ensures n >= m
  {
    hide Inv, OnPlan, Tracks, WorkerStep, WorkerEnabled;
    n := WorkTracks(s, t, p, m);
    WorkLeavesCpu(t);
    SameCpuOnPlan(plan, t, WorkerStep(t), p);
  }

  lemma Tracked(s: Sys, plan: Plan, t: Sys, p: seq<u8>, m: nat)
    requires UnderWay(s, plan, t, p, m)
    ensures Tracks(s, t, p, m) && (plan.Pipelined? ==> p <= plan.taken)
  {
    hide Tracks, OnPlan;
    if plan.Pipelined? {
      FrontOfPlan(plan, t, p);
    }
  }

  lemma WorkAlong(s: Sys, plan: Plan, t: Sys, p: seq<u8>, m: nat) returns (n: nat)
    requires Inv(t) && WorkerEnabled(t) && Along(s, plan, t, p, m) && Bounded(plan)
    ensures Along(s, plan, WorkerStep(t), p, n)
  {
    hide Inv, UnderWay, OnTheWay, WorkerStep, WorkerEnabled;
    n := WorkUnderWay(s, plan, t, p, m);
    Tracked(s, plan, t, p, m);
    if Pressed(s, plan) {
      WorkOnTheWay(s, plan, t, p, m, n);
    }
  }

  predicate Bounded(plan: Plan) {
    plan.Pipelined? ==> |plan.taken| <= BUDGET + CHUNK
  }

  lemma StepAlong(s: Sys, plan: Plan, t: Sys, p: seq<u8>, m: nat, l: Label) returns (q: seq<u8>, n: nat)
    requires Inv(t) && Internal(l) && Enabled(t, l) && Along(s, plan, t, p, m) && Bounded(plan)
    ensures Do(t, l).syncmode || Along(s, plan, Do(t, l), q, n)
  {
    hide Inv, Along, CpuStep, WorkerStep, CpuEnabled, WorkerEnabled;
    q, n := p, m;
    match l
    case Cpu =>
      q := Pushes(t, p);
      CpuAlong(s, plan, t, p, m);
    case Work => n := WorkAlong(s, plan, t, p, m);
    case Timeout => RestAlong(s, plan, t, Do(t, l), p, m);
    case GiveUp => RestAlong(s, plan, t, Do(t, l), p, m);
    case Spurious => RestAlong(s, plan, t, Do(t, l), p, m);
  }

  lemma SyncStays(t: Sys)
    requires Inv(t) && CpuEnabled(t) && t.syncmode
    ensures Over(CpuStep(t))
  {
    hide Slice, Stream, Sizable, CommandSize, Guarded, Flow, Carried, FencesAhead, Published, Wakes,
      CanTake, ChunkAt, TakeChunk, Scan, HeadStep, WaitStep, SyncChunk, CopyStep, Overwrite, HandshakeStep;
    if t.cpu.Waiting? {
      WaitStaysSync(t);
    }
  }

  lemma WaitStaysSync(t: Sys)
    requires t.cpu.Waiting? && !t.cpu.stage.Asleep? && t.syncmode
    ensures WaitStep(t).syncmode
  {
    hide Served, Watched;
  }

  lemma WorkStaysOver(t: Sys)
    requires Inv(t) && WorkerEnabled(t) && Over(t)
    ensures Over(WorkerStep(t))
  {
    WorkLeavesCpu(t);
    hide Inv, PullStep, DecodeStep, ParkStep;
    if !t.syncmode {
      CaughtUpStays(t);
    }
  }

  lemma CaughtUpStays(t: Sys)
    requires Inv(t) && WorkerEnabled(t) && CaughtUp(t)
    ensures CaughtUp(WorkerStep(t))
  {
    NoPull(t);
    hide Inv, WorkerStep, WorkerEnabled;
    WorkMovesNothing(t);
    NothingToDecode(t);
  }

  lemma NoPull(t: Sys)
    requires Inv(t) && CaughtUp(t)
    ensures !t.worker.Pull?
  {
    hide Shape, Guarded, Mode, Carried, FencesAhead, Published, Wakes, CommandSize;
  }

  lemma NothingToDecode(t: Sys)
    requires WorkerEnabled(t) && CaughtUp(t) && !t.worker.Pull?
    ensures var w := WorkerStep(t).worker; !w.Decode? && !w.PubRetired? && !w.PubDone?
  {
    hide PullStep, DecodeStep, PullOk, ParkStep, ReportStep;
    if Idling(t.worker) {
      ParkGoesOn(t);
    } else if !t.worker.Top? {
      NoticeGoesOn(t);
    }
  }

  lemma ParkGoesOn(t: Sys)
    requires Idling(t.worker)
    ensures var w := ParkStep(t).worker; Idling(w) || w.Top? || w.Sleeping?
  {
    hide ParkNext;
  }

  lemma NoticeGoesOn(t: Sys)
    requires t.worker.Notify? || t.worker.WakeCpu?
    ensures var w := ReportStep(t).worker; w.WakeCpu? || w.Top?
  {
  }

  lemma StepOver(t: Sys, l: Label)
    requires Inv(t) && Internal(l) && Enabled(t, l) && Over(t)
    ensures Over(Do(t, l))
  {
    hide Inv, CpuStep, WorkerStep, WorkerEnabled;
    match l
    case Cpu => SyncStays(t);
    case Work => WorkStaysOver(t);
    case Timeout =>
    case GiveUp =>
    case Spurious =>
  }

  /** Wherever a tick has got to, it is on its way or over. */
  lemma {:induction false} RunAlong(s: Sys, plan: Plan, t: Sys, p: seq<u8>, m: nat, ls: seq<Label>) returns (q: seq<u8>, n: nat)
    requires Inv(t) && IsRun(t, ls) && AllInternal(ls) && (Over(t) || Along(s, plan, t, p, m)) && Bounded(plan)
    ensures Inv(After(t, ls)) && (Over(After(t, ls)) || Along(s, plan, After(t, ls), q, n))
    decreases |ls|
  {
    hide Inv, Along, Over, Do, Enabled;
    q, n := p, m;
    if ls != [] {
      assert Internal(ls[0]);
      StepKeepsInv(t, ls[0]);
      if Over(t) {
        StepOver(t, ls[0]);
      } else {
        q, n := StepAlong(s, plan, t, p, m, ls[0]);
        SyncIsOver(Do(t, ls[0]));
      }
      q, n := RunAlong(s, plan, Do(t, ls[0]), q, n, ls[1..]);
    }
  }

  lemma SyncIsOver(t: Sys)
    ensures t.syncmode ==> Over(t)
  {
  }

  /** Bytes handed over before the tick, as far as that matters. */
  function HandedBefore(s: Sys): nat {
    if Pressed(s, TickPlan(s)) then Already(s) else 0
  }

  lemma TickBegins(s: Sys)
    requires Inv(s) && s.cpu.Idle?
    ensures s.poisoned || s.syncmode ==> Over(TickStart(s))
    ensures !s.poisoned && !s.syncmode ==> Along(s, TickPlan(s), TickStart(s), [], HandedBefore(s))
    ensures !s.poisoned && !s.syncmode && Pressed(s, TickPlan(s)) ==>
              Shape(s) && Heading(s, TickPlan(s), TickStart(s), HandedBefore(s))
  {
    var t := TickStart(s);
    ShapeHere(s);
    TickFields(s);
    hide Inv, Shape, TickStart, TickPlan, Tracks, OnPlan, Pressed, OnTheWay, Heading;
    SameData(s, t);
    if !s.poisoned && !s.syncmode {
      TickOnPlan(s);
      if Pressed(s, TickPlan(s)) {
        StartsOnTheWay(s, TickPlan(s), t);
        if s.worker.Decode? {
          TrackStart(s, t);
        } else {
          Partial(s);
          TrackStaged(s, t);
        }
      } else {
        TrackStart(s, t);
      }
    }
  }

  lemma Partial(s: Sys)
    requires Inv(s) && !s.worker.Decode?
    ensures CommandSize(s.g.cp, s.buf) == 0
  {
    hide Shape, Guarded, Mode, Carried, FencesAhead, Published, Wakes, CommandSize;
  }

  lemma TickFields(s: Sys)
    requires Inv(s) && s.cpu.Idle?
    ensures SameStream(s, TickStart(s)) && TickStart(s).syncmode == s.syncmode && !s.failed
    ensures var t := TickStart(s); t.retired == s.retired && t.worker == s.worker && !t.cpu.Copy? && !t.cpu.Publish?
    ensures s.poisoned ==> s.syncmode
  {
    hide Shape, Guarded, Flow, Carried, FencesAhead, Published, WorkerSleeps, CpuSleeps;
  }

  lemma TickOnPlan(s: Sys)
    requires s.cpu.Idle? && !s.poisoned && !s.syncmode && !s.failed
    ensures OnPlan(TickPlan(s), TickStart(s), [])
  {
    hide PlanFrom;
    EmptyFront(Tail(TickStart(s)));
  }

  lemma EmptyFront(p: Plan)
    ensures Behind([] + [], p) == p
  {
    if p.Pipelined? {
      assert [] + [] + p.taken == p.taken;
    }
  }

  // ---- the condition ------------------------------------------------------

  /** The first chunk boundary at or behind a stream offset. */
  function ChunkEnd(offset: int): int {
    (offset + CHUNK - 1) / CHUNK * CHUNK
  }

  /** How many of the bytes under way and to be taken are sure to be executed in
      the tick: all through the chunk in which its last fence ends; without a
      fence, if it has to wait for ring space, what that drives the worker
      through; otherwise none. */
  ghost function Forced(s: Sys, plan: Plan): int
    requires Shape(s) && plan.Pipelined?
  {
    if plan.fence != 0 then ChunkEnd(plan.fence) - Pos(s)
    else if Pressed(s, plan) then DrivenTo(s, plan)
    else 0
  }

  /** Told before the tick: it stays pipelined, and some list called by a command
      that ends behind the forced bytes has a command that tells the pixel engine
      something. */
  ghost predicate ListsLag(s: Sys)
    requires Shape(s)
  {
    var plan := TickPlan(s);
    plan.Pipelined? &&
    var d, k := Data(s) + plan.taken, Forced(s, plan);
    0 <= k <= |d| && CallsTell(RegsOf(Run(s.g, d[..k]).g), s.g.mem, Leftover(s.g, d[..k]) + d[k..])
  }

  lemma ChunkEndIs(offset: int)
    ensures ChunkEnd(offset) % CHUNK == 0 && ChunkEnd(offset) - CHUNK < offset <= ChunkEnd(offset)
  {
  }

  lemma IdleScanner(s: Sys)
    requires Inv(s) && s.cpu.Idle? && !s.syncmode
    ensures s.carry == Leftover(s.g, Data(s)) && s.scanPos == Pos(s) + |Data(s)| - |s.carry|
    ensures Pos(s) + |Data(s)| == s.produced >= 0
  {
    hide Slice, CommandSize, Sizable, Guarded, Flow, Mode, FencesAhead, Published, Wakes, Leftover;
    NothingAhead(s);
  }

  lemma PoisonedChunk(s: Sys)
    requires Inv(s) && s.cpu.Idle? && !s.syncmode && !Sizable(Data(s)) && CanTake(s.arch)
    ensures PlanFrom(s.carry, s.scanPos, s.arch, 0, 0) == Synchronous
  {
    IdleScanner(s);
    IdleSizable(s);
    hide Inv, CommandSize, Data, Leftover, CanTake, ChunkAt, TakeChunk, Scan, PlanFrom;
    PartialFacts(s.g, s.buf, 0);
    ScanInPieces(s.carry, ChunkAt(s.arch), 0);
    if |s.carry| + CHUNK <= CARRY {
      PlanStep(s.carry, s.scanPos, s.arch, 0, 0);
    } else {
      Overflows(s.carry, s.scanPos, s.arch);
    }
  }

  lemma Overflows(carry: seq<u8>, scanPos: int, arch: Arch)
    requires CanTake(arch) && |carry| + CHUNK > CARRY
    ensures PlanFrom(carry, scanPos, arch, 0, 0) == Synchronous
  {
  }

  lemma PlanKnown(s: Sys)
    requires Inv(s) && s.cpu.Idle? && TickPlan(s).Pipelined?
    ensures Sizable(Data(s)) ==> PlanOf(Data(s), Pos(s), TickPlan(s), 0)
    ensures !Sizable(Data(s)) ==> TickPlan(s) == Pipelined([], 0)
    ensures |TickPlan(s).taken| <= BUDGET + CHUNK
  {
    ShapeHere(s);
    hide Inv, Data, Leftover, CanTake, PlanOf;
    if s.arch.cp.readEnable {
      IdleScanner(s);
      if Sizable(Data(s)) {
        PlanFacts(s.g, Data(s), Pos(s), s.carry, s.scanPos, s.arch, 0, 0);
      } else if CanTake(s.arch) {
        PoisonedChunk(s);
      }
    } else if Sizable(Data(s)) {
      NothingTaken(Data(s), Pos(s), 0);
    }
  }

  /** A stream cut after `k` bytes: sizable behind the cut, and the fences found
      there are those of the stream that end behind it. */
  lemma CutStream(g: Gx, d: seq<u8>, k: nat, pos: int, l: seq<u8>, from: int)
    requires k <= |d| && Sizable(d) && l == Leftover(g, d[..k]) && from == pos + k - |l|
    ensures Sizable(l + d[k..])
    ensures forall f :: f in FenceEnds(l + d[k..], from) ==> f in FenceEnds(d, pos) && f > pos + k
    ensures forall f :: f in FenceEnds(d, pos) ==> f <= pos + k || f in FenceEnds(l + d[k..], from)
  {
    hide Scan, FenceEnds, Leftover, ScanCommand;
    assert d[..k] + d[k..] == d;
    SizablePrefix(d[..k], d[k..]);
    SizableLeftover(g, d[..k]);
    ScanInPieces(d[..k], d[k..], pos);
    FencesAreNew(l, d[k..], from);
    FenceIsLast(d[..k], pos);
  }

  lemma ForcedFacts(s: Sys)
    requires Inv(s) && s.cpu.Idle? && TickPlan(s).Pipelined? && Sizable(Data(s))
    ensures var plan := TickPlan(s);
            var d, k := Data(s) + plan.taken, Forced(s, plan);
            && Sizable(d)
            && (plan.fence != 0 ==>
                  && 0 <= k <= |d| && (k > 0 ==> (Pos(s) + k) % CHUNK == 0)
                  && plan.fence in FenceEnds(d, Pos(s)) && s.produced < plan.fence
                  && Pos(s) + k - CHUNK < plan.fence <= Pos(s) + k)
            && (forall f :: f in FenceEnds(d, Pos(s)) ==> plan.fence != 0 && f <= Pos(s) + k)
  {
    hide *;
    ShapeHere(s);
    PlanKnown(s);
    IdleHasNoFence(s);
    IdleSizable(s);
    NextFencesAre(s);
    BytesUnderWay(s);
    ForcedOf(Data(s), Pos(s), s.produced, TickPlan(s));
    ForcedIs(s, TickPlan(s));
  }

  lemma NextFencesAre(s: Sys)
    requires Shape(s)
    ensures NextFences(s) == FenceEnds(Stream(s), Pos(s))
  {
  }

  lemma ForcedIs(s: Sys, plan: Plan)
    requires Shape(s) && plan.Pipelined?
    ensures plan.fence != 0 ==> Forced(s, plan) == ChunkEnd(plan.fence) - Pos(s)
    ensures plan.fence == 0 && Pressed(s, plan) ==> Forced(s, plan) == DrivenTo(s, plan)
    ensures plan.fence == 0 && !Pressed(s, plan) ==> Forced(s, plan) == 0
  {
    hide DrivenTo, Pressed;
  }

  lemma ForcedOf(data: seq<u8>, pos: int, produced: int, plan: Plan)
    requires plan.Pipelined? && PlanOf(data, pos, plan, 0) && FenceEnds(data, pos) == {}
    requires pos + |data| == produced >= 0 && produced % CHUNK == 0
    ensures var d, k := data + plan.taken, ChunkEnd(plan.fence) - pos;
            && Sizable(d)
            && (plan.fence != 0 ==>
                  && 0 <= k <= |d| && (k > 0 ==> (pos + k) % CHUNK == 0)
                  && plan.fence in FenceEnds(d, pos) && produced < plan.fence
                  && pos + k - CHUNK < plan.fence <= pos + k)
            && (forall f :: f in FenceEnds(d, pos) ==> plan.fence != 0 && f <= pos + k)
  {
    hide FenceEnds, Sizable;
    ChunkEndIs(plan.fence);
    hide ChunkEnd;
    if plan.fence != 0 {
      AlignedSum(produced, |plan.taken|);
      AlignedBound(ChunkEnd(plan.fence), plan.fence, produced + |plan.taken|);
    }
  }

  lemma AlignedSum(a: int, b: int)
    requires a % CHUNK == 0 && b % CHUNK == 0
    ensures (a + b) % CHUNK == 0
  {
  }

  lemma BytesUnderWay(s: Sys)
    requires Shape(s)
    ensures Pos(s) + |Data(s)| == s.produced >= 0 && s.produced % CHUNK == 0
  {
  }

  lemma AlignedBound(end: int, offset: int, limit: int)
    requires end % CHUNK == 0 && limit % CHUNK == 0 && end - CHUNK < offset <= limit
    ensures end <= limit
  {
  }

  // ---- no such list, no lag -----------------------------------------------

  lemma Altogether(g: Gx, d: seq<u8>, m: nat)
    requires m <= |d|
    ensures Run(Run(g, d[..m]).g, Leftover(g, d[..m]) + d[m..]).g == Run(g, d).g
  {
    hide Run, Leftover;
    assert d[..m] + d[m..] == d;
    LeftoverInPieces(g, d[..m], d[m..]);
  }

  /** Between two points of a run, and over all of it, only more is told. */
  lemma Between(g: Gx, d: seq<u8>, k: nat, m: nat)
    requires k <= m <= |d|
    ensures Run(g, d[..k]).g.pe <= Run(g, d[..m]).g.pe <= Run(g, d).g.pe
  {
    hide Run, Leftover;
    assert d[..m][..k] == d[..k];
    Altogether(g, d[..m], k);
    Altogether(g, d, m);
    RunExtends(Run(g, d[..k]).g, Leftover(g, d[..k]) + d[..m][k..]);
    RunExtends(Run(g, d[..m]).g, Leftover(g, d[..m]) + d[m..]);
  }

  /** When the tick has returned, at least the forced bytes have been handed to
      the decoder: the last fence is executed, and it was pulled in a chunk; or
      the last chunk has found space. */
  lemma ForcedAreDone(s: Sys, v: Sys, p: seq<u8>, m: nat)
    requires Inv(s) && s.cpu.Idle? && TickPlan(s).Pipelined? && Sizable(Data(s))
    requires Inv(v) && v.cpu.Idle? && Along(s, TickPlan(s), v, p, m)
    ensures Shape(s) && Forced(s, TickPlan(s)) <= m
  {
    ShapeHere(s);
    var plan := TickPlan(s);
    hide Inv, Data, TickPlan, FenceEnds, Sizable, Run, Leftover, NextFences, Stream, Forced, Pos, CommandSize, PlanFrom, Pressed, DrivenTo, Heading;
    ForcedIs(s, plan);
    IdleOnPlan(plan, v, p);
    if plan.fence != 0 {
      FenceIsDone(s, v, p, m);
    } else if Pressed(s, plan) {
      Longer(s, v, p, m);
    }
  }

  lemma FenceIsDone(s: Sys, v: Sys, p: seq<u8>, m: nat)
    requires Inv(s) && s.cpu.Idle? && TickPlan(s).Pipelined? && TickPlan(s).fence != 0 && Sizable(Data(s))
    requires Inv(v) && v.cpu.Idle? && Tracks(s, v, p, m) && p == TickPlan(s).taken
    ensures Shape(s) && Forced(s, TickPlan(s)) <= m
  {
    hide Inv, Data, TickPlan, FenceEnds, Sizable, Run, Leftover, NextFences, Stream, Forced, Pos, CommandSize, PlanFrom;
    ShapeHere(s);
    ForcedFacts(s);
    IdleHasNoFence(v);
    IdleStream(v);
    NextFencesAre(v);
    TrackedPos(s, v, p, m);
    TrackedData(s, v, p, m);
    BytesUnderWay(s);
    var plan, d := TickPlan(s), Data(s) + p;
    hide *;
    FencePulled(s.g, d, m, Forced(s, plan), Pos(s), plan.fence);
  }

  lemma TrackedData(s: Sys, v: Sys, p: seq<u8>, m: nat)
    requires Tracks(s, v, p, m)
    ensures var d := Data(s) + p;
            && m <= |d| && (m > 0 ==> (Pos(s) + m) % CHUNK == 0) && v.g == Run(s.g, d[..m]).g
            && Data(v) == Leftover(s.g, d[..m]) + d[m..]
  {
    hide Run, Leftover, Data;
  }

  lemma FencePulled(g: Gx, d: seq<u8>, m: nat, k: int, pos: int, fence: int)
    requires m <= |d| && Sizable(d) && fence in FenceEnds(d, pos) && (m > 0 ==> (pos + m) % CHUNK == 0)
    requires pos < fence && pos + k - CHUNK < fence && (k > 0 ==> (pos + k) % CHUNK == 0)
    requires FenceEnds(Leftover(g, d[..m]) + d[m..], pos + m - |Leftover(g, d[..m])|) == {}
    ensures k <= m
  {
    hide Sizable, FenceEnds, Leftover;
    CutStream(g, d, m, pos, Leftover(g, d[..m]), pos + m - |Leftover(g, d[..m])|);
    if m < k {
      Earlier(pos + m, pos + k);
    }
  }

  lemma Earlier(a: int, b: int)
    requires a < b && b % CHUNK == 0
    ensures a % CHUNK == 0 ==> a <= b - CHUNK
  {
  }

  lemma IdleStream(v: Sys)
    requires Inv(v) && v.cpu.Idle?
    ensures Stream(v) == Data(v)
  {
    ShapeHere(v);
    NothingAhead(v);
  }

  lemma TrackedPos(s: Sys, v: Sys, p: seq<u8>, m: nat)
    requires Tracks(s, v, p, m)
    ensures Pos(v) == Pos(s) + m - |Leftover(s.g, (Data(s) + p)[..m])|
  {
    hide Run, Leftover;
  }

  /** A state in which the pixel engine has not been told everything it would be
      by what is under way has a list to blame, known before the tick. */
  lemma LagHasAList(s: Sys, v: Sys, p: seq<u8>, m: nat)
    requires Inv(s) && s.cpu.Idle? && Inv(v) && v.cpu.Idle? && Along(s, TickPlan(s), v, p, m)
    requires Shape(v) && Run(v.g, Data(v)).g.pe != v.g.pe
    ensures Shape(s) && ListsLag(s)
  {
    ShapeHere(s);
    var plan := TickPlan(s);
    IdleOnPlan(plan, v, p);
    TrackedData(s, v, p, m);
    var d := Data(s) + p;
    TopLevel(s);
    hide Shape, Data, Run, Leftover, Inv, TickPlan, CallsTell, FenceEnds, Along, Tracks, OnPlan, Forced, Sizable;
    if !Sizable(Data(s)) {
      PlanKnown(s);
      NothingToTell(s);
      assert d == Data(s);
      Altogether(s.g, d, m);
      Between(s.g, d, 0, m);
      RunNothing(s.g, d);
    } else {
      ForcedFacts(s);
      ForcedAreDone(s, v, p, m);
      ForcedPositive(s, plan);
      Blame(s.g, d, Forced(s, plan), m, Pos(s));
    }
  }

  lemma ForcedPositive(s: Sys, plan: Plan)
    requires Shape(s) && plan.Pipelined?
    ensures plan.fence == 0 ==> Forced(s, plan) >= 0
  {
    hide DrivenTo;
  }

  lemma Blame(g: Gx, d: seq<u8>, k: nat, m: nat, pos: int)
    requires k <= m <= |d| && g.depth == 0 && Sizable(d)
    requires forall f :: f in FenceEnds(d, pos) ==> f <= pos + k
    requires Run(Run(g, d[..m]).g, Leftover(g, d[..m]) + d[m..]).g.pe != Run(g, d[..m]).g.pe
    ensures CallsTell(RegsOf(Run(g, d[..k]).g), g.mem, Leftover(g, d[..k]) + d[k..])
  {
    hide Run, Leftover, FenceEnds, Sizable, CallsTell;
    Altogether(g, d, m);
    Between(g, d, k, m);
    Altogether(g, d, k);
    var l, h := Leftover(g, d[..k]), Run(g, d[..k]).g;
    var from := pos + k - |l|;
    CutStream(g, d, k, pos, l, from);
    var rest := l + d[k..];
    NoneBehind(FenceEnds(rest, from), FenceEnds(d, pos), pos + k);
    StretchSays(h, rest, from);
  }

  lemma NoneBehind(a: set<int>, b: set<int>, bound: int)
    requires forall f :: f in a ==> f in b && f > bound
    requires forall f :: f in b ==> f <= bound
    ensures a == {}
  {
    assert forall f :: f !in a;
  }

  lemma IdleOnPlan(plan: Plan, v: Sys, p: seq<u8>)
    requires v.cpu.Idle? && OnPlan(plan, v, p)
    ensures plan.Pipelined? && plan.taken == p
  {
  }

  lemma NothingToTell(s: Sys)
    requires Inv(s) && s.cpu.Idle? && Shape(s) && !Sizable(Data(s))
    ensures Run(s.g, Data(s)).g == s.g
  {
    IdleSizable(s);
    hide Inv, CommandSize, Data, Run;
    PartialFacts(s.g, s.buf, 0);
  }

  lemma RunNothing(g: Gx, d: seq<u8>)
    ensures Run(g, d[..0]).g == g
  {
    EmptyIsPartial(g);
    assert d[..0] == [];
    PartialFacts(g, [], 0);
  }

  lemma TopLevel(s: Sys)
    requires Shape(s)
    ensures s.g.depth == 0
  {
  }
}
