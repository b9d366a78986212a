/** What a tick is going to take, as it can be told before the tick, and how the
    pipeline comes along with it under any schedule. */
module GxTickPlan {
  import opened Bytes
  import opened GxDecode
  import opened GxStream
  import opened GxScanner
  import opened CommandFifo
  import opened GxSync
  import opened GxPipeline
  import opened GxFlow
  import opened GxPipelineInv
  import opened GxPipelineSteps
  import opened GxPipelineRefines
  import opened GxPipelineTheorems
  import opened GxPipelineLive

  // ---- the plan -----------------------------------------------------------

  /** A tick ends in synchronous mode, or pushes the bytes `taken` through the
      ring, the last of their fences ending at stream offset `fence`, 0 if there
      is none. */
  datatype Plan = Synchronous | Pipelined(taken: seq<u8>, fence: int)

  function Behind(front: seq<u8>, p: Plan): Plan {
    if p.Pipelined? then p.(taken := front + p.taken) else p
  }

  /** The offset of the newest fence, 0 standing for none. */
  function LastFence(fence: int, scanPos: int, found: nat): int {
    var end := if found == 0 then 0 else scanPos + found;
    if end != 0 then end else fence
  }

  /** Chunk by chunk, as long as the FIFO and the budget give any: a draw, or a
      carry that would overflow, makes the tick synchronous. */
  function PlanFrom(carry: seq<u8>, scanPos: int, arch: Arch, drained: nat, fence: int): Plan
    decreases BUDGET - drained
  {
    if drained < BUDGET && CanTake(arch) then
      if |carry| + CHUNK > CARRY then Synchronous
      else
        var all := carry + ChunkAt(arch);
        var scan := Scan(all);
        if scan.poison then Synchronous
        else
          Behind(ChunkAt(arch),
                 PlanFrom(all[scan.used..], scanPos + scan.used, TakeChunk(arch), drained + CHUNK,
                          LastFence(fence, scanPos, scan.fence)))
    else Pipelined([], fence)
  }

  function TickPlan(s: Sys): Plan {
    if !s.arch.cp.readEnable then Pipelined([], 0)
    else if s.poisoned || s.syncmode then Synchronous
    else PlanFrom(s.carry, s.scanPos, s.arch, 0, 0)
  }

  lemma PlanStep(carry: seq<u8>, scanPos: int, arch: Arch, drained: nat, fence: int)
    requires drained < BUDGET && CanTake(arch) && |carry| + CHUNK <= CARRY
    ensures var all := carry + ChunkAt(arch);
            var scan := Scan(all);
            PlanFrom(carry, scanPos, arch, drained, fence)
            == if scan.poison then Synchronous
               else Behind(ChunkAt(arch),
                           PlanFrom(all[scan.used..], scanPos + scan.used, TakeChunk(arch), drained + CHUNK,
                                    LastFence(fence, scanPos, scan.fence)))
  {
    hide CanTake, ChunkAt, Scan, TakeChunk;
  }

  /** What a plan says about the stream: sizable throughout, its new fences
      behind what is published and the last of them the one it names. */
  ghost predicate PlanOf(data: seq<u8>, pos: int, p: Plan, fence: int)
    requires p.Pipelined?
  {
    && Sizable(data + p.taken) && |p.taken| % CHUNK == 0
    && (forall f :: f in FenceEnds(data + p.taken, pos) ==> f in FenceEnds(data, pos) || pos + |data| < f <= p.fence)
    && (|| p.fence == fence
        || (p.fence in FenceEnds(data + p.taken, pos) && pos + |data| < p.fence <= pos + |data| + |p.taken|))
  }

  lemma PlanExtends(data: seq<u8>, chunk: seq<u8>, pos: int, p: Plan, fence: int, next: int)
    requires p.Pipelined? && |chunk| == CHUNK && PlanOf(data + chunk, pos, p, next)
    requires forall f :: f in FenceEnds(data + chunk, pos) ==>
               f in FenceEnds(data, pos) || (pos + |data| < f <= next && f <= pos + |data| + CHUNK)
    requires next == fence || (next in FenceEnds(data + chunk, pos) && pos + |data| < next <= pos + |data| + CHUNK)
    requires FenceEnds(data + chunk, pos) <= FenceEnds(data + chunk + p.taken, pos)
    ensures PlanOf(data, pos, Behind(chunk, p), fence)
  {
    hide Sizable, FenceEnds;
    assert data + (chunk + p.taken) == data + chunk + p.taken;
  }

  lemma FencesGrow(a: seq<u8>, b: seq<u8>, pos: int)
    requires Sizable(a)
    ensures FenceEnds(a, pos) <= FenceEnds(a + b, pos)
  {
    hide Scan, FenceEnds;
    ScanInPieces(a, b, pos);
  }

  lemma {:induction false} PlanFacts(g: Gx, data: seq<u8>, pos: int, carry: seq<u8>, scanPos: int, arch: Arch,
                                     drained: nat, fence: int)
    requires carry == Leftover(g, data) && scanPos == pos + |data| - |carry| && Sizable(data) && pos + |data| >= 0
    requires PlanFrom(carry, scanPos, arch, drained, fence).Pipelined?
    ensures PlanOf(data, pos, PlanFrom(carry, scanPos, arch, drained, fence), fence)
    ensures |PlanFrom(carry, scanPos, arch, drained, fence).taken| <= if drained < BUDGET then BUDGET - drained + CHUNK else 0
    decreases BUDGET - drained
  {
    hide CanTake, ChunkAt, TakeChunk, Scan, FenceEnds, Leftover, PlanOf;
    if drained < BUDGET && CanTake(arch) {
      var chunk := ChunkAt(arch);
      var all := carry + chunk;
      var scan := Scan(all);
      var next := LastFence(fence, scanPos, scan.fence);
      PlanStep(carry, scanPos, arch, drained, fence);
      ScanPush(g, data, chunk, pos);
      FenceIsLast(all, scanPos);
      PlanFacts(g, data + chunk, pos, all[scan.used..], scanPos + scan.used, arch := TakeChunk(arch),
                drained := drained + CHUNK, fence := next);
      var rest := PlanFrom(all[scan.used..], scanPos + scan.used, TakeChunk(arch), drained + CHUNK, next);
      FencesGrow(data + chunk, rest.taken, pos);
      PlanExtends(data, chunk, pos, rest, fence, next);
    } else {
      NothingTaken(data, pos, fence);
    }
  }

  lemma NothingTaken(data: seq<u8>, pos: int, fence: int)
    requires Sizable(data)
    ensures PlanOf(data, pos, Pipelined([], fence), fence)
  {
    assert data + [] == data;
  }

  // ---- coming along -------------------------------------------------------

  /** `t` is on the way from `s`: `p` has been published since, the first `m`
      bytes of what was under way and `p` have been handed to the decoder, and
      `m`, unless it is 0, is a chunk boundary of the stream. */
  ghost predicate Tracks(s: Sys, t: Sys, p: seq<u8>, m: nat) {
    && Shape(s) && Shape(t)
    && (var d := Data(s) + p;
        && t.produced == s.produced + |p| && m <= |d| && (m > 0 ==> (Pos(s) + m) % CHUNK == 0) && Pos(s) + m <= t.pulled
        && t.g == Run(s.g, d[..m]).g && Data(t) == Leftover(s.g, d[..m]) + d[m..])
  }

  lemma TrackStart(s: Sys, t: Sys)
    requires Shape(s) && Shape(t) && t.g == s.g && Data(t) == Data(s)
    requires t.produced == s.produced && t.pulled == s.pulled
    ensures Tracks(s, t, [], 0)
  {
    hide Slice, CommandSize;
    var d := Data(s) + [];
    assert d == Data(s) && d[..0] == [] && d[0..] == d;
    EmptyIsPartial(s.g);
    PartialFacts(s.g, [], 0);
  }

  lemma TrackFrame(s: Sys, t: Sys, u: Sys, p: seq<u8>, m: nat)
    requires Tracks(s, t, p, m) && Shape(u)
    requires u.g == t.g && Data(u) == Data(t) && u.produced == t.produced && u.pulled >= t.pulled
    ensures Tracks(s, u, p, m)
  {
    hide Data, Run, Leftover, Shape;
  }

  lemma SameData(t: Sys, u: Sys)
    requires Shape(t) && u.g == t.g && u.buf == t.buf && u.ring == t.ring && u.produced == t.produced && u.pulled == t.pulled
    ensures Shape(u) && Data(u) == Data(t)
  {
  }

  lemma TrackPublish(s: Sys, t: Sys, p: seq<u8>, m: nat)
    requires Tracks(s, t, p, m) && Shape(t) && Guarded(t) && t.cpu.Publish?
    ensures CanTake(t.arch) && Tracks(s, PublishStep(t), p + ChunkAt(t.arch), m)
  {
    hide Slice, CanTake, ChunkAt, Run, Leftover, Data, Guarded;
    PublishData(t);
    hide Shape;
    var c := ChunkAt(t.arch);
    var d, e := Data(s) + p, Data(s) + (p + c);
    assert e == d + c && e[..m] == d[..m] && e[m..] == d[m..] + c;
  }

  lemma StagedPart(s: Sys, t: Sys, p: seq<u8>, m: nat) returns (n: nat)
    requires Tracks(s, t, p, m)
    ensures n == t.pulled - Pos(s) && m <= n <= |Data(s) + p|
    ensures var d := Data(s) + p;
            && t.buf == Leftover(s.g, d[..m]) + d[m..n]
            && Slice(t.ring, t.pulled, t.produced - t.pulled) == d[n..]
  {
    hide Run, Leftover;
    n := t.pulled - Pos(s);
    var d := Data(s) + p;
    var left := Leftover(s.g, d[..m]);
    var rest := Slice(t.ring, t.pulled, t.produced - t.pulled);
    assert |t.buf| == |left| + (n - m);
    assert (t.buf + rest)[..|t.buf|] == t.buf && (t.buf + rest)[|t.buf|..] == rest;
    assert (left + d[m..])[..|t.buf|] == left + d[m..n] && (left + d[m..])[|t.buf|..] == d[n..];
  }

  lemma TrackDecode(s: Sys, t: Sys, p: seq<u8>, m: nat) returns (n: nat)
    requires Tracks(s, t, p, m) && t.worker.Decode?
    ensures n == t.pulled - Pos(s) >= m && Tracks(s, DecodeStep(t), p, n)
  {
    hide Run, Leftover, Slice, Data, DecodeStep;
    n := StagedPart(s, t, p, m);
    var d := Data(s) + p;
    DecodedPart(s, t, p, m, n);
    LeftoverInPieces(s.g, d[..m], d[m..n]);
    assert d[..m] + d[m..n] == d[..n];
    DecodeTracks(s, t, p, n);
  }

  lemma DecodedPart(s: Sys, t: Sys, p: seq<u8>, m: nat, n: nat)
    requires Tracks(s, t, p, m) && t.worker.Decode?
    requires m <= n <= |Data(s) + p|
    requires t.buf == Leftover(s.g, (Data(s) + p)[..m]) + (Data(s) + p)[m..n]
    ensures var l := Leftover(s.g, (Data(s) + p)[..m]) + (Data(s) + p)[m..n];
            var u := DecodeStep(t);
            && u.g == Run(Run(s.g, (Data(s) + p)[..m]).g, l).g && u.buf == Leftover(Run(s.g, (Data(s) + p)[..m]).g, l)
            && Shape(u) && u == t.(g := u.g, buf := u.buf, worker := PubRetired)
  {
    DecodeRefines(t);
    hide Run, Leftover, Slice, Outcome, Data;
  }

  lemma DecodeTracks(s: Sys, t: Sys, p: seq<u8>, n: nat)
    requires Shape(s) && Shape(DecodeStep(t)) && t.worker.Decode?
    requires n == t.pulled - Pos(s) && n <= |Data(s) + p| && t.produced == s.produced + |p|
    requires DecodeStep(t).g == Run(s.g, (Data(s) + p)[..n]).g && DecodeStep(t).buf == Leftover(s.g, (Data(s) + p)[..n])
    requires Slice(t.ring, t.pulled, t.produced - t.pulled) == (Data(s) + p)[n..]
    ensures Tracks(s, DecodeStep(t), p, n)
  {
    hide Run, Leftover, Slice;
  }

  /** With everything published processed, everything has been handed over. */
  lemma TrackAll(s: Sys, t: Sys, p: seq<u8>, m: nat)
    requires Tracks(s, t, p, m) && t.produced == t.pulled && CommandSize(t.g.cp, t.buf) == 0
    ensures Tracks(s, t, p, |Data(s) + p|)
  {
    hide Slice, CommandSize, Run, Leftover;
    var d := Data(s) + p;
    QuietData(t);
    PartialFacts(t.g, t.buf, 0);
    hide Data;
    LeftoverInPieces(s.g, d[..m], d[m..]);
    assert d[..m] + d[m..] == d && d[..|d|] == d && d[|d|..] == [];
    AllAligned(s, t, p);
  }

  lemma AllAligned(s: Sys, t: Sys, p: seq<u8>)
    requires Shape(s) && Shape(t) && t.produced == s.produced + |p|
    ensures Pos(s) + |Data(s) + p| == t.produced && t.produced % CHUNK == 0
  {
  }

  /** Program points before the chunk in hand is accounted for. */
  function Tail(t: Sys): Plan {
    if t.cpu.Head? then PlanFrom(t.carry, t.scanPos, t.arch, t.cpu.drained, t.cpu.fence)
    else PlanFrom(t.carry, t.scanPos, TakeChunk(t.arch), Drained(t.cpu) + CHUNK, CpuFence(t.cpu))
  }

  predicate InLoop(cpu: Cpu) {
    cpu.Head? || Pushing(cpu) || Pushed(cpu)
  }

  /** What has been published and what the CPU still has before it are the plan. */
  predicate OnPlan(plan: Plan, t: Sys, p: seq<u8>) {
    if InLoop(t.cpu) then plan == Behind(p + Ahead(t), Tail(t))
    else if t.cpu.Waiting? && t.cpu.goal.Fenced? then plan == Pipelined(p, t.cpu.goal.fence)
    else if AtHandoff(t.cpu) then plan == Synchronous
    else (t.cpu.Settled? || t.cpu.Idle?) && plan.Pipelined? && plan.taken == p
  }

  ghost predicate UnderWay(s: Sys, plan: Plan, t: Sys, p: seq<u8>, m: nat) {
    !t.syncmode && Tracks(s, t, p, m) && OnPlan(plan, t, p)
  }

  /** The CPU has taken over, or nothing is left to execute after the tick. */
  predicate Over(t: Sys) {
    t.syncmode || (t.cpu.Idle? && CaughtUp(t))
  }

  // ---- every step comes along ---------------------------------------------

  lemma CopyTracks(s: Sys, t: Sys, p: seq<u8>, m: nat)
    requires Tracks(s, t, p, m) && Guarded(t) && t.cpu.Copy? && CopyOk(t)
    ensures Tracks(s, CopyStep(t), p, m)
  {
    hide Overwrite, Slice, CanTake, ChunkAt, Run, Leftover;
    SliceWrite(t.ring, t.pulled, t.produced, ChunkAt(t.arch));
  }

  predicate SameStream(t: Sys, u: Sys) {
    u.g == t.g && u.buf == t.buf && u.ring == t.ring && u.produced == t.produced && u.pulled == t.pulled
  }

  lemma ReachedMovesNothing(t: Sys, goal: Goal)
    ensures SameStream(t, Reached(t, goal))
  {
  }

  lemma WaitMovesNothing(t: Sys)
    requires t.cpu.Waiting? && !t.cpu.stage.Asleep?
    ensures SameStream(t, WaitStep(t))
  {
    hide Served, Watched, Reached;
    ReachedMovesNothing(t, t.cpu.goal);
  }

  lemma HeadMovesNothing(t: Sys)
    requires t.cpu.Head?
    ensures SameStream(t, HeadStep(t))
  {
    hide CanTake, ChunkAt, Scan, AfterLoop;
  }

  lemma HandMovesNothing(t: Sys)
    requires t.cpu.Bump? || t.cpu.WakeCheck? || t.cpu.WakeCall?
    ensures SameStream(t, HandshakeStep(t))
  {
  }

  /** Steps of the CPU that move no bytes. */
  lemma CpuMovesNothing(t: Sys)
    requires CpuEnabled(t) && !t.cpu.Copy? && !t.cpu.Publish? && !t.cpu.Sync?
    ensures SameStream(t, CpuStep(t))
  {
    hide CanTake, TakeChunk, WaitStep, SyncStep, CopyStep, HeadStep, HandshakeStep, CopyOk;
    if t.cpu.Waiting? {
      WaitMovesNothing(t);
    } else if t.cpu.Head? {
      HeadMovesNothing(t);
    } else if t.cpu.Bump? || t.cpu.WakeCheck? || t.cpu.WakeCall? {
      HandMovesNothing(t);
    }
  }

  /** What is published after a step of the CPU. */
  function Pushes(t: Sys, p: seq<u8>): seq<u8> {
    if t.cpu.Publish? && CanTake(t.arch) then p + ChunkAt(t.arch) else p
  }

  lemma CpuTracks(s: Sys, t: Sys, p: seq<u8>, m: nat)
    requires Inv(t) && CpuEnabled(t) && !t.cpu.Sync? && Tracks(s, t, p, m)
    ensures Tracks(s, CpuStep(t), Pushes(t, p), m)
  {
    ShapeHere(t);
    hide Tracks, Shape, Flow, Mode, Carried, FencesAhead, Published, Wakes, Guarded, Data, CopyOk, CopyStep, HeadStep, WaitStep, SyncStep, ResumeStep;
    if t.cpu.Publish? {
      TrackPublish(s, t, p, m);
    } else if t.cpu.Copy? {
      CopyTracks(s, t, p, m);
    } else {
      CpuMovesNothing(t);
      SameData(t, CpuStep(t));
      TrackFrame(s, t, CpuStep(t), p, m);
    }
  }

  lemma HeadOnPlan(plan: Plan, t: Sys, p: seq<u8>)
    requires t.cpu.Head? && OnPlan(plan, t, p)
    ensures OnPlan(plan, HeadStep(t), p)
  {
    hide CanTake, ChunkAt, TakeChunk, Scan;
    if t.cpu.drained < BUDGET && CanTake(t.arch) && |t.carry| + CHUNK <= CARRY {
      hide PlanFrom;
      ScanOnPlan(plan, t, p);
    } else {
      assert p + [] == p;
    }
  }

  lemma ScanOnPlan(plan: Plan, t: Sys, p: seq<u8>)
    requires t.cpu.Head? && OnPlan(plan, t, p)
    requires t.cpu.drained < BUDGET && CanTake(t.arch) && |t.carry| + CHUNK <= CARRY
    ensures OnPlan(plan, HeadStep(t), p)
  {
    hide CanTake, ChunkAt, TakeChunk, Scan, PlanFrom;
    PlanStep(t.carry, t.scanPos, t.arch, t.cpu.drained, t.cpu.fence);
    var u := HeadStep(t);
    if !Scan(t.carry + ChunkAt(t.arch)).poison {
      assert Tail(t) == Behind(ChunkAt(t.arch), Tail(u));
      assert Ahead(t) == [] && Ahead(u) == ChunkAt(t.arch);
      hide Tail, HeadStep, Ahead;
      BehindTwice(p, ChunkAt(t.arch), Tail(u));
      BehindTwice(p, [], Tail(t));
    }
  }

  lemma BehindTwice(a: seq<u8>, b: seq<u8>, p: Plan)
    ensures Behind(a, Behind(b, p)) == Behind(a + b, p)
    ensures Behind(a + [], p) == Behind(a, p)
  {
    assert a + [] == a;
    if p.Pipelined? {
      assert a + (b + p.taken) == a + b + p.taken;
    }
  }

  /** In the same place of the loop with the same scanner and FIFO. */
  lemma PlanFrame(plan: Plan, t: Sys, u: Sys, p: seq<u8>)
    requires OnPlan(plan, t, p) && InLoop(t.cpu) && !t.cpu.Head?
    requires u.carry == t.carry && u.scanPos == t.scanPos && u.arch == t.arch
    requires Pushing(u.cpu) == Pushing(t.cpu) && Pushed(u.cpu) == Pushed(t.cpu) && !u.cpu.Head?
    requires Drained(u.cpu) == Drained(t.cpu) && CpuFence(u.cpu) == CpuFence(t.cpu)
    ensures OnPlan(plan, u, p)
  {
    hide PlanFrom, TakeChunk, CanTake, ChunkAt, Drained, CpuFence;
  }

  /** The same place but for the stage of a wait. */
  predicate SameCpu(a: Cpu, b: Cpu) {
    a == b || (a.Waiting? && b.Waiting? && a.goal == b.goal)
  }

  predicate SameScan(t: Sys, u: Sys) {
    && SameCpu(u.cpu, t.cpu) && u.syncmode == t.syncmode && u.carry == t.carry && u.scanPos == t.scanPos
    && u.arch == t.arch && u.produced == t.produced && u.poisoned == t.poisoned
  }

  lemma SameCpuOnPlan(plan: Plan, t: Sys, u: Sys, p: seq<u8>)
    requires OnPlan(plan, t, p) && SameCpu(u.cpu, t.cpu)
    requires u.carry == t.carry && u.scanPos == t.scanPos && u.arch == t.arch
    ensures OnPlan(plan, u, p)
  {
    hide PlanFrom, TakeChunk, CanTake, ChunkAt;
  }

  lemma WaitIs(t: Sys)
    requires t.cpu.Waiting? && !t.cpu.stage.Asleep? && !t.failed
    ensures if t.cpu.stage.Check? && Served(t, t.cpu.goal) then WaitStep(t) == Reached(t, t.cpu.goal)
            else SameScan(t, WaitStep(t))
  {
    hide Served, Watched, Reached;
  }

  lemma ReachedOnPlan(plan: Plan, t: Sys, p: seq<u8>)
    requires t.cpu.Waiting? && OnPlan(plan, t, p)
    ensures var u := Reached(t, t.cpu.goal); u.syncmode || OnPlan(plan, u, p)
  {
    hide PlanFrom, TakeChunk, CanTake, ChunkAt;
    if t.cpu.goal.Space? {
      PlanFrame(plan, t, Reached(t, t.cpu.goal), p);
    }
  }

  lemma WaitOnPlan(plan: Plan, t: Sys, p: seq<u8>)
    requires t.cpu.Waiting? && !t.cpu.stage.Asleep? && !t.failed && OnPlan(plan, t, p)
    ensures WaitStep(t).syncmode || OnPlan(plan, WaitStep(t), p)
  {
    hide OnPlan, WaitStep, Served, Reached;
    WaitIs(t);
    if t.cpu.stage.Check? && Served(t, t.cpu.goal) {
      ReachedOnPlan(plan, t, p);
    } else {
      SameCpuOnPlan(plan, t, WaitStep(t), p);
    }
  }

  lemma PublishOnPlan(plan: Plan, t: Sys, p: seq<u8>)
    requires t.cpu.Publish? && CanTake(t.arch) && OnPlan(plan, t, p)
    ensures OnPlan(plan, PublishStep(t), Pushes(t, p))
  {
    hide PlanFrom, TakeChunk, CanTake, ChunkAt;
    BehindTwice(p + ChunkAt(t.arch), [], Tail(t));
  }

  lemma AccountOnPlan(plan: Plan, t: Sys, p: seq<u8>)
    requires t.cpu.Account? && OnPlan(plan, t, p)
    ensures OnPlan(plan, AccountStep(t), p)
  {
    hide PlanFrom, TakeChunk, CanTake, ChunkAt;
  }

  lemma HandOnPlan(plan: Plan, t: Sys, p: seq<u8>)
    requires t.cpu.Bump? || t.cpu.WakeCheck? || t.cpu.WakeCall? || (t.cpu.Copy? && CopyOk(t))
    requires OnPlan(plan, t, p)
    ensures OnPlan(plan, CpuStep(t), p)
  {
    hide PlanFrom, TakeChunk, CanTake, ChunkAt, Overwrite, OnPlan, CopyOk, HeadStep, WaitStep, SyncStep;
    PlanFrame(plan, t, CpuStep(t), p);
  }

  lemma CpuOnPlan(plan: Plan, t: Sys, p: seq<u8>)
    requires Inv(t) && CpuEnabled(t) && !t.syncmode && OnPlan(plan, t, p)
    ensures CpuStep(t).syncmode || OnPlan(plan, CpuStep(t), Pushes(t, p))
    ensures !t.cpu.Sync?
  {
    LoopGuards(t);
    hide Inv, OnPlan, CopyOk, CopyStep, HeadStep, WaitStep, PublishStep, HandshakeStep, AccountStep, SyncStep, ResumeStep;
    match t.cpu
    case Head(_, _) => HeadOnPlan(plan, t, p);
    case Waiting(_, _) => WaitOnPlan(plan, t, p);
    case Copy(_, _, _) => HandOnPlan(plan, t, p);
    case Publish(_, _, _) => PublishOnPlan(plan, t, p);
    case Bump(_, _, _) => HandOnPlan(plan, t, p);
    case WakeCheck(_, _, _) => HandOnPlan(plan, t, p);
    case WakeCall(_, _, _) => HandOnPlan(plan, t, p);
    case Account(_, _, _) => AccountOnPlan(plan, t, p);
    case Settled(_) => SettledOnPlan(plan, t, p);
  }

  lemma SettledOnPlan(plan: Plan, t: Sys, p: seq<u8>)
    requires t.cpu.Settled? && !t.syncmode && !t.poisoned && OnPlan(plan, t, p)
    ensures OnPlan(plan, SettleStep(t), p)
  {
  }

  lemma LoopGuards(t: Sys)
    requires Inv(t)
    ensures !t.failed && (!t.syncmode ==> !t.cpu.Sync? && !t.cpu.Resume?)
    ensures t.cpu.Settled? && !t.syncmode ==> !t.poisoned
    ensures t.cpu.Publish? || t.cpu.Copy? ==> CanTake(t.arch)
  {
    hide Slice, CanTake, ChunkAt, Flow, Carried, FencesAhead, Published, WorkerSleeps, CpuSleeps;
  }

  lemma WorkTracks(s: Sys, t: Sys, p: seq<u8>, m: nat) returns (n: nat)
    requires Inv(t) && WorkerEnabled(t) && Tracks(s, t, p, m)
    ensures Tracks(s, WorkerStep(t), p, n)
    ensures n == if t.worker.Decode? then t.pulled - Pos(s) else m
    ensures n >= m
  {
    ShapeHere(t);
    n := m;
    hide Inv, Tracks, Shape, Data, PullStep, DecodeStep, ReportStep, ParkStep, PullOk;
    if t.worker.Decode? {
      n := TrackDecode(s, t, p, m);
    } else if t.worker.Pull? {
      PullTracks(t);
      TrackFrame(s, t, WorkerStep(t), p, m);
    } else {
      WorkMovesNothing(t);
      SameData(t, WorkerStep(t));
      TrackFrame(s, t, WorkerStep(t), p, m);
    }
  }

  lemma PullTracks(t: Sys)
    requires Inv(t) && t.worker.Pull?
    ensures PullOk(t) && Shape(t) && Shape(PullStep(t)) && Data(PullStep(t)) == Data(t)
    ensures var u := PullStep(t); u.g == t.g && u.produced == t.produced && u.pulled >= t.pulled
  {
    ShapeHere(t);
    PulledBytes(t);
    PullFits(t);
    hide Slice, Guarded, Flow, Mode, Carried, FencesAhead, Published, Wakes, PullSize;
    PulledData(t);
  }

  lemma WorkMovesNothing(t: Sys)
    requires WorkerEnabled(t) && !t.worker.Pull? && !t.worker.Decode?
    ensures SameStream(t, WorkerStep(t))
  {
    hide ParkStep, PullStep, DecodeStep, ReportStep, TopStep, PullOk;
    if t.worker.PubRetired? || t.worker.PubDone? || t.worker.Notify? || t.worker.WakeCpu? {
      ReportMovesNothing(t);
    } else {
      RestMovesNothing(t);
    }
  }

  lemma ReportMovesNothing(t: Sys)
    requires t.worker.PubRetired? || t.worker.PubDone? || t.worker.Notify? || t.worker.WakeCpu?
    ensures SameStream(t, ReportStep(t))
  {
  }

  lemma RestMovesNothing(t: Sys)
    ensures Idling(t.worker) ==> SameStream(t, ParkStep(t))
    ensures SameStream(t, TopStep(t))
  {
    hide ParkNext;
  }

  lemma ReportLeavesCpu(t: Sys)
    requires t.worker.PubRetired? || t.worker.PubDone? || t.worker.Notify? || t.worker.WakeCpu?
    ensures SameScan(t, ReportStep(t))
  {
  }

  lemma RestLeavesCpu(t: Sys)
    ensures Idling(t.worker) ==> SameScan(t, ParkStep(t))
    ensures SameScan(t, TopStep(t)) && SameScan(t, DecodeStep(t))
  {
    hide ParkNext, Run, Leftover;
  }

  lemma WorkLeavesCpu(t: Sys)
    requires Inv(t) && WorkerEnabled(t)
    ensures SameScan(t, WorkerStep(t))
  {
    hide Inv, ParkStep, PullStep, PullOk, TopStep, DecodeStep, ReportStep;
    if t.worker.Pull? {
      PulledBytes(t);
    } else if t.worker.PubRetired? || t.worker.PubDone? || t.worker.Notify? || t.worker.WakeCpu? {
      ReportLeavesCpu(t);
    } else {
      RestLeavesCpu(t);
    }
  }

  // ---- what the CPU leaves to the worker ----------------------------------

  lemma WaitLeavesRetired(t: Sys)
    requires t.cpu.Waiting? && !t.cpu.stage.Asleep?
    ensures WaitStep(t).retired == t.retired && (WaitStep(t).syncmode ==> t.syncmode || AtHandoff(t.cpu))
  {
    hide Served, Watched;
  }

  lemma HeadLeavesRetired(t: Sys)
    requires t.cpu.Head?
    ensures HeadStep(t).retired == t.retired && HeadStep(t).syncmode == t.syncmode
  {
    hide CanTake, ChunkAt, Scan, AfterLoop;
  }

  lemma SyncLeavesRetired(t: Sys)
    requires t.cpu.Sync?
    ensures SyncStep(t).retired == t.retired && SyncStep(t).syncmode == t.syncmode
  {
    hide SyncChunk, SyncGuard, CanTake;
  }

  lemma HandLeavesRetired(t: Sys)
    requires t.cpu.Bump? || t.cpu.WakeCheck? || t.cpu.WakeCall?
    ensures HandshakeStep(t).retired == t.retired && HandshakeStep(t).syncmode == t.syncmode
  {
  }

  lemma CpuLeavesRetired(t: Sys)
    requires CpuEnabled(t)
    ensures CpuStep(t).retired == t.retired && (CpuStep(t).syncmode ==> t.syncmode || AtHandoff(t.cpu))
  {
    hide CopyOk, Overwrite, ChunkAt, TakeChunk, HeadStep, WaitStep, SyncStep, HandshakeStep, CanTake;
    if t.cpu.Waiting? {
      WaitLeavesRetired(t);
    } else if t.cpu.Head? {
      HeadLeavesRetired(t);
    } else if t.cpu.Sync? {
      SyncLeavesRetired(t);
    } else if t.cpu.Bump? || t.cpu.WakeCheck? || t.cpu.WakeCall? {
      HandLeavesRetired(t);
    }
  }
}
