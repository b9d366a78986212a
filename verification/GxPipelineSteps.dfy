/** Every step of either thread keeps the invariant. */
module GxPipelineSteps {
  import opened Bytes
  import opened GxDecode
  import opened GxStream
  import opened GxScanner
  import opened CommandFifo
  import opened GxSync
  import opened GxPipeline
  import opened GxFlow
  import opened GxPipelineInv

  // ---- steps that only move the two threads about -------------------------

  /** Nothing but program counters, flags and the epoch differs, and the CPU is
      in the same phase with the same fence. */
  predicate ControlOnly(s: Sys, t: Sys) {
    && SameBytes(s, t) && t.arch == s.arch
    && t.retired == s.retired && t.done == s.done
    && t.carry == s.carry && t.scanPos == s.scanPos
    && t.poisoned == s.poisoned && t.syncmode == s.syncmode && t.unsafe == s.unsafe
    && CpuFence(t.cpu) == CpuFence(s.cpu) && AtHandoff(t.cpu) == AtHandoff(s.cpu)
    && (t.cpu.Sync? || t.cpu.Resume? ==> t.cpu == s.cpu || s.cpu.Sync? || s.syncmode)
    && (t.cpu.Resume? ==> t.cpu == s.cpu || !s.poisoned)
    && (t.cpu.Head? || Pushing(t.cpu) || Pushed(t.cpu) ==>
          s.cpu.Head? || Pushing(s.cpu) || Pushed(s.cpu) || !s.syncmode)
    && Busy(t.worker) == Busy(s.worker)
    && (Busy(s.worker) ==> t.worker == s.worker)
  }

  lemma ControlFrame(s: Sys, t: Sys)
    requires Inv(s) && ControlOnly(s, t)
    ensures Shape(t) && Flow(t) && Mode(t) && Carried(t) && FencesAhead(t) && Published(t)
  {
    hide Wakes, Guarded, Slice, Sizable, Stream, NextFences, Rest, Ahead, CpuFence, CommandSize;
    BytesFrame(s, t);
  }

  lemma AdvertiseKeepsInv(s: Sys)
    requires Inv(s) && s.cpu.Waiting? && (s.cpu.stage.Check? || s.cpu.stage.Arm?)
    requires s.cpu.stage.Check? ==> !Served(s, s.cpu.goal)
    ensures Inv(WaitStep(s))
  {
    hide Slice, Stream, CommandSize, CanTake, ChunkAt, Reached, Flow, Mode, Carried, FencesAhead, Published;
    ControlFrame(s, WaitStep(s));
  }

  lemma CompareKeepsInv(s: Sys)
    requires Inv(s) && s.cpu.Waiting? && (s.cpu.stage.Compare? || s.cpu.stage.Disarm?)
    ensures Inv(WaitStep(s))
  {
    hide Slice, Stream, CommandSize, CanTake, ChunkAt, Reached, Flow, Mode, Carried, FencesAhead, Published;
    ControlFrame(s, WaitStep(s));
  }

  lemma SleepEndsKeepsInv(s: Sys)
    requires Inv(s) && s.cpu.Waiting? && s.cpu.stage.Asleep?
    ensures Inv(s.(cpu := Woken(s.cpu)))
  {
    hide Slice, Stream, CommandSize, CanTake, ChunkAt, Reached, Flow, Mode, Carried, FencesAhead, Published;
    ControlFrame(s, s.(cpu := Woken(s.cpu)));
  }

  lemma HandshakeKeepsInv(s: Sys)
    requires Inv(s) && (s.cpu.Bump? || s.cpu.WakeCheck? || s.cpu.WakeCall?)
    ensures Inv(HandshakeStep(s))
  {
    hide Slice, Stream, CommandSize, CanTake, ChunkAt, Reached, Flow, Mode, Carried, FencesAhead, Published;
    ControlFrame(s, HandshakeStep(s));
  }

  lemma SettleKeepsInv(s: Sys)
    requires Inv(s) && s.cpu.Settled?
    ensures Inv(SettleStep(s))
  {
    hide Slice, Stream, CommandSize, CanTake, ChunkAt, Flow, Carried, FencesAhead, Published, Sizable;
    ControlFrame(s, SettleStep(s));
  }

  lemma LoopEndKeepsInv(s: Sys)
    requires Inv(s) && s.cpu.Head? && !(s.cpu.drained < BUDGET && CanTake(s.arch))
    ensures Inv(HeadStep(s))
  {
    hide Slice, Stream, CommandSize, CanTake, ChunkAt, Flow, Mode, Carried, FencesAhead, Published;
    ControlFrame(s, HeadStep(s));
  }

  /** Ring space is there when the worker has retired enough, even though what
      it publishes can be stale: `retired` never exceeds `pulled`. */
  lemma SpaceReachedKeepsInv(s: Sys)
    requires Inv(s) && s.cpu.Waiting? && s.cpu.stage.Check? && s.cpu.goal.Space? && Served(s, s.cpu.goal)
    ensures Inv(Reached(s, s.cpu.goal))
  {
    hide Slice, Stream, CommandSize, CanTake, ChunkAt, Mode, Carried, FencesAhead, Published;
    ControlFrame(s, Reached(s, s.cpu.goal));
  }

  lemma JoinReachedKeepsInv(s: Sys)
    requires Inv(s) && s.cpu.Waiting? && s.cpu.stage.Check? && s.cpu.goal.Join? && Served(s, s.cpu.goal)
    ensures Inv(Reached(s, s.cpu.goal))
  {
    hide Slice, Stream, CommandSize, CanTake, ChunkAt, Flow, Mode, Carried, FencesAhead, Published;
    ControlFrame(s, Reached(s, s.cpu.goal));
  }

  /** A fence that `retired` has reached is really executed, and with it every
      earlier one. */
  lemma FenceReachedKeepsInv(s: Sys)
    requires Inv(s) && s.cpu.Waiting? && s.cpu.stage.Check? && s.cpu.goal.Fenced? && Served(s, s.cpu.goal)
    ensures NextFences(s) == {}
    ensures Inv(Reached(s, s.cpu.goal))
  {
    hide Slice, Stream, CommandSize, CanTake, ChunkAt, Sizable, NextFences, Rest;
    BytesFrame(s, Reached(s, s.cpu.goal));
    assert forall f :: f in NextFences(s) ==> s.retired < f <= s.cpu.goal.fence;
  }

  /** When the worker has processed everything published, it is quiet. */
  lemma HandoffReachedKeepsInv(s: Sys)
    requires Inv(s) && s.cpu.Waiting? && s.cpu.stage.Check? && s.cpu.goal.Handoff? && Served(s, s.cpu.goal)
    ensures Inv(Reached(s, s.cpu.goal))
  {
    hide Slice, Stream, CommandSize, CanTake, ChunkAt, Sizable, NextFences, Rest;
    BytesFrame(s, Reached(s, s.cpu.goal));
  }

  // ---- scanning and pushing a chunk ---------------------------------------

  /** The scanner stops at a draw, or would overflow: the chunk is left alone
      and the CPU goes to synchronous mode.  Overflow needs the unsafe gate. */
  lemma PoisonKeepsInv(s: Sys)
    requires Inv(s) && s.cpu.Head? && s.cpu.drained < BUDGET && CanTake(s.arch)
    requires |s.carry| + CHUNK > CARRY || Scan(s.carry + ChunkAt(s.arch)).poison
    ensures Inv(HeadStep(s))
  {
    hide Slice, Stream, CommandSize, CanTake, ChunkAt, Sizable, NextFences, Rest, Scan;
    BytesFrame(s, HeadStep(s));
  }

  lemma NothingAhead(s: Sys)
    requires Shape(s) && Ahead(s) == []
    ensures Stream(s) == Data(s)
  {
  }

  lemma QuietData(s: Sys)
    requires Shape(s) && s.pulled == s.produced
    ensures Data(s) == s.buf
  {
  }

  /** At the loop head everything not executed yet can be sized, unless what is
      staged is a draw on which the next scan will stop. */
  lemma HeadSizable(s: Sys, chunk: seq<u8>)
    requires Inv(s) && s.cpu.Head? && Sizable(s.carry + chunk)
    ensures Sizable(Data(s)) && s.carry == Leftover(s.g, Data(s))
  {
    hide CommandSize, Slice, Leftover, Sizable, Data, Wakes, Guarded, FencesAhead, Published;
    NothingAhead(s);
    if !Sizable(Data(s)) {
      QuietData(s);
      PartialFacts(s.g, s.buf, 0);
      SizablePrefix(s.carry, chunk);
    }
  }

  lemma PushedStream(s: Sys)
    requires Inv(s) && s.cpu.Head? && s.cpu.drained < BUDGET && CanTake(s.arch)
    requires |s.carry| + CHUNK <= CARRY && !Scan(s.carry + ChunkAt(s.arch)).poison
    ensures var t := HeadStep(s);
            && Shape(t) && Ahead(t) == ChunkAt(s.arch) && Sizable(Stream(t)) && t.carry == Rest(t)
            && |t.carry| <= 68
            && t.scanPos == s.scanPos + Scan(s.carry + ChunkAt(s.arch)).used
            && Rest(s) == s.carry
            && forall f :: f in NextFences(t) ==>
                 f in NextFences(s) || (s.produced < f <= t.cpu.goal.end && t.cpu.goal.end != 0)
    ensures HeadStep(s).cpu.goal.end != 0 ==>
              s.produced < HeadStep(s).cpu.goal.end <= HeadStep(s).scanPos
  {
    hide CommandSize, Slice, Leftover, FenceEnds, Scan, Wakes, Guarded, FencesAhead, Published, CanTake, ChunkAt;
    var chunk := ChunkAt(s.arch);
    var t := HeadStep(s);
    HeadSizable(s, chunk);
    NothingAhead(s);
    ScanPush(s.g, Data(s), chunk, Pos(s));
    SizableLeftover(s.g, Data(s) + chunk);
    assert Data(t) == Data(s);
    assert |Data(s)| == |s.buf| + s.produced - s.pulled;
  }

  lemma PushKeepsInv(s: Sys)
    requires Inv(s) && s.cpu.Head? && s.cpu.drained < BUDGET && CanTake(s.arch)
    requires |s.carry| + CHUNK <= CARRY && !Scan(s.carry + ChunkAt(s.arch)).poison
    ensures Inv(HeadStep(s))
  {
    hide Slice, Stream, CommandSize, CanTake, ChunkAt, Sizable, NextFences, Rest, Scan;
    PushedStream(s);
  }

  lemma CopyKeepsInv(s: Sys)
    requires Inv(s) && s.cpu.Copy?
    ensures CopyOk(s) && Inv(CopyStep(s))
  {
    hide Stream, CommandSize, CanTake, ChunkAt, Sizable, NextFences, Rest, Slice, Overwrite;
    AlignedInRing(s.produced);
    SliceWrite(s.ring, s.pulled, s.produced, ChunkAt(s.arch));
    CopiedBytes(s);
  }

  lemma CopiedBytes(s: Sys)
    requires Shape(s) && s.cpu.Copy? && CopyOk(s) && s.produced + CHUNK <= s.pulled + RING
    ensures var t := CopyStep(s);
            Shape(t) && Stream(t) == Stream(s) && NextFences(t) == NextFences(s) && Rest(t) == Rest(s)
  {
    hide Overwrite, Slice, CanTake, ChunkAt;
    SliceWrite(s.ring, s.pulled, s.produced, ChunkAt(s.arch));
  }

  lemma PublishedBytes(s: Sys)
    requires Shape(s) && Guarded(s) && s.cpu.Publish?
    ensures var t := PublishStep(s);
            Shape(t) && Ahead(t) == [] && |Ahead(s)| == CHUNK
            && Stream(t) == Stream(s) && NextFences(t) == NextFences(s) && Rest(t) == Rest(s)
  {
    hide Slice, CanTake, ChunkAt;
    var t := PublishStep(s);
    SliceSplit(s.ring, s.pulled, s.produced - s.pulled, CHUNK);
    assert Data(t) == s.buf + (Slice(s.ring, s.pulled, s.produced - s.pulled) + ChunkAt(s.arch));
    assert Data(t) == Stream(s);
    assert Data(t) + [] == Data(t);
  }

  lemma PublishKeepsInv(s: Sys)
    requires Inv(s) && s.cpu.Publish?
    ensures Inv(PublishStep(s))
  {
    hide Stream, CommandSize, CanTake, ChunkAt, Sizable, NextFences, Rest, Slice;
    PublishedBytes(s);
  }

  lemma AccountKeepsInv(s: Sys)
    requires Inv(s) && s.cpu.Account?
    ensures Inv(AccountStep(s))
  {
    hide Stream, CommandSize, CanTake, ChunkAt, Sizable, NextFences, Rest, Slice, TakeChunk;
    BytesFrame(s, AccountStep(s));
  }

  // ---- synchronous mode and its end ---------------------------------------

  /** With nothing in the ring the stream is the staging buffer, and a partial
      command there holds no fence. */
  lemma QuietBytes(s: Sys)
    requires Shape(s) && s.pulled == s.produced && Ahead(s) == [] && CommandSize(s.g.cp, s.buf) == 0
    ensures Stream(s) == s.buf && Rest(s) == s.buf && NextFences(s) == {}
  {
    hide CommandSize, Leftover, FenceEnds;
    NothingAhead(s);
    QuietData(s);
    PartialFacts(s.g, s.buf, Pos(s));
  }

  lemma SyncChunkBytes(s: Sys)
    requires Inv(s) && s.cpu.Sync? && SyncGuard(Machine(s.arch, s.g, s.buf), s.cpu.drained)
    ensures var t := SyncStep(s);
            |t.buf| <= STAGING && t.g.depth == 0 && CommandSize(t.g.cp, t.buf) == 0
            && t.produced == s.produced && t.pulled == s.pulled
            && t.worker == s.worker && t.cpu == Sync(s.cpu.drained + CHUNK)
  {
    hide CommandSize, Leftover, Run, CanTake, ChunkAt, TakeChunk, Sizable, Stream, NextFences, Rest;
    LeftoverFacts(s.g, s.buf + ChunkAt(s.arch));
  }

  lemma SyncKeepsInv(s: Sys)
    requires Inv(s) && s.cpu.Sync?
    ensures Inv(SyncStep(s))
  {
    hide CommandSize, Leftover, Run, CanTake, ChunkAt, TakeChunk, Sizable, Stream, NextFences, Rest, Slice;
    var t := SyncStep(s);
    if SyncGuard(Machine(s.arch, s.g, s.buf), s.cpu.drained) {
      SyncChunkBytes(s);
      QuietBytes(t);
    } else {
      ControlFrame(s, t);
    }
  }

  /** The scanner is re-seeded with the staging leftover: offsets then count the
      leftover as not retired on both sides. */
  lemma ResumeKeepsInv(s: Sys)
    requires Inv(s) && s.cpu.Resume?
    ensures Inv(ResumeStep(s))
  {
    hide CommandSize, Sizable, Stream, NextFences, Rest, Slice;
    var t := ResumeStep(s);
    QuietBytes(s);
    QuietBytes(t);
  }

  // ---- between ticks ------------------------------------------------------

  lemma TickKeepsInv(s: Sys)
    requires Inv(s) && s.cpu.Idle?
    ensures Inv(TickStart(s))
  {
    hide CommandSize, Sizable, Stream, NextFences, Rest, Slice;
    BytesFrame(s, TickStart(s));
  }

  lemma GuestKeepsInv(s: Sys, a: Arch)
    requires Inv(s) && s.cpu.Idle?
    ensures Inv(s.(arch := a))
  {
    hide CommandSize, Sizable, Stream, NextFences, Rest, Slice;
    BytesFrame(s, s.(arch := a));
  }

  lemma JoinCallKeepsInv(s: Sys)
    requires Inv(s) && s.cpu.Idle?
    ensures Inv(s.(cpu := Waiting(Check, Join)))
  {
    hide Slice, Stream, CommandSize, CanTake, ChunkAt, Flow, Mode, Carried, FencesAhead, Published;
    ControlFrame(s, s.(cpu := Waiting(Check, Join)));
  }

  // ---- the worker ---------------------------------------------------------

  lemma ParkKeepsSleeps(s: Sys)
    requires WorkerSleeps(s) && Idling(s.worker)
    ensures WorkerSleeps(ParkStep(s))
  {
  }

  predicate Resting(w: Worker) {
    Idling(w) || w.Top? || w.Sleeping?
  }

  lemma RestControl(s: Sys, parked: bool, w: Worker)
    requires Inv(s) && Resting(s.worker) && Resting(w)
    ensures ControlOnly(s, s.(parked := parked, worker := w))
  {
    hide Slice, Stream, CanTake, ChunkAt, Guarded, Flow, Mode, Carried, FencesAhead, Published, Wakes, CpuFence;
  }

  lemma RestFrame(s: Sys, parked: bool, w: Worker)
    requires Inv(s) && Resting(s.worker) && Resting(w)
    requires WorkerSleeps(s.(parked := parked, worker := w))
    ensures Inv(s.(parked := parked, worker := w))
  {
    hide Slice, CanTake, ChunkAt, Flow, Mode, Carried, FencesAhead, Published, WorkerSleeps, ControlOnly;
    RestControl(s, parked, w);
    ControlFrame(s, s.(parked := parked, worker := w));
  }

  lemma ParkKeepsInv(s: Sys)
    requires Inv(s) && Idling(s.worker)
    ensures Inv(ParkStep(s))
  {
    ParkKeepsSleeps(s);
    hide Inv, WorkerSleeps, ParkNext;
    RestFrame(s, ParkStep(s).parked, ParkStep(s).worker);
  }

  /** Holding bytes, the worker takes no part in sleeping. */
  predicate Working(w: Worker) {
    w.Top? || w.Pull? || w.Decode? || w.PubRetired?
  }

  lemma WorkingFrame(s: Sys, t: Sys)
    requires Wakes(s) && Working(s.worker) && Working(t.worker) && t.cpu == s.cpu
    requires t.parked == s.parked && t.waiting == s.waiting && t.epoch == s.epoch && t.failed == s.failed
    requires t.produced == s.produced && t.retired == s.retired && t.done == s.done
    ensures Wakes(t)
  {
  }

  lemma NotifyKeepsInv(s: Sys)
    requires Inv(s) && (s.worker.Notify? || s.worker.WakeCpu?)
    ensures Inv(ReportStep(s))
  {
    hide Slice, Stream, CommandSize, CanTake, ChunkAt, Flow, Mode, Carried, FencesAhead, Published;
    ControlFrame(s, ReportStep(s));
  }

  lemma GiveUpKeepsInv(s: Sys)
    requires Inv(s) && s.worker.Spin? && s.produced == s.pulled
    ensures Inv(s.(worker := Park(s.worker.epoch)))
  {
    hide Shape, Guarded, Flow, Mode, Carried, FencesAhead, Published, CpuSleeps;
    RestFrame(s, s.parked, Park(s.worker.epoch));
  }

  lemma SpuriousKeepsInv(s: Sys)
    requires Inv(s) && s.worker.Sleeping?
    ensures Inv(s.(worker := Unpark))
  {
    hide Shape, Guarded, Flow, Mode, Carried, FencesAhead, Published, CpuSleeps;
    RestFrame(s, s.parked, Unpark);
  }

  lemma TopKeepsInv(s: Sys)
    requires Inv(s) && s.worker.Top?
    ensures Inv(TopStep(s))
  {
    hide Slice, Stream, CommandSize, CanTake, ChunkAt, Sizable, NextFences, Rest;
    BytesFrame(s, TopStep(s));
  }

  lemma PullSizeFits(staged: nat, pulled: int, seen: int)
    requires staged <= 68 && 0 <= pulled < seen && pulled % CHUNK == 0 && seen % CHUNK == 0
    ensures var n := PullSize(staged, pulled, seen);
            && 0 < n && n % CHUNK == 0 && pulled + n <= seen
            && staged + n <= STAGING && n <= RING - pulled % RING
  {
    AlignedInRing(pulled);
    RoundDown(STAGING - staged);
    Difference(seen, pulled);
  }

  lemma RoundDown(room: int)
    requires room >= CHUNK
    ensures 0 < room - room % CHUNK <= room && (room - room % CHUNK) % CHUNK == 0
  {
    assert room - room % CHUNK == CHUNK * (room / CHUNK);
  }

  lemma Difference(a: int, b: int)
    requires a % CHUNK == 0 && b % CHUNK == 0
    ensures (a - b) % CHUNK == 0
  {
  }

  function Pulls(s: Sys): int
    requires s.worker.Pull?
  {
    PullSize(|s.buf|, s.pulled, s.worker.seen)
  }

  /** A pull always finds room: what is staged is a partial command the scanner
      could size, at most 68 bytes.  So the worker never fails. */
  lemma PullFits(s: Sys)
    requires Inv(s) && s.worker.Pull?
    ensures PullOk(s)
    ensures var n := Pulls(s);
            && 0 < n && n % CHUNK == 0 && s.pulled + n <= s.worker.seen <= s.produced
            && |s.buf| + n <= STAGING && n <= RING - s.pulled % RING
  {
    hide Guarded, Carried, FencesAhead, Published, Wakes, Mode, CommandSize, PullSize;
    StagedIsShort(s);
    PullSizeFits(|s.buf|, s.pulled, s.worker.seen);
  }

  lemma StagedIsShort(s: Sys)
    requires Inv(s) && Busy(s.worker) && !s.worker.Decode?
    ensures |s.buf| <= 68
  {
    hide Slice, CommandSize, CanTake, ChunkAt, Leftover, Scan, Guarded, Carried, FencesAhead, Published, Wakes, Sizable;
    assert Stream(s) == s.buf + (Slice(s.ring, s.pulled, s.produced - s.pulled) + Ahead(s));
    SizablePrefix(s.buf, Slice(s.ring, s.pulled, s.produced - s.pulled) + Ahead(s));
    SizableLeftover(s.g, s.buf);
    PartialFacts(s.g, s.buf, 0);
  }

  lemma PulledData(s: Sys)
    requires Shape(s) && PullOk(s) && 0 < Pulls(s) && s.pulled + Pulls(s) <= s.produced
    requires Pulls(s) % CHUNK == 0 && |s.buf| + Pulls(s) <= STAGING
    ensures Shape(PullStep(s)) && Data(PullStep(s)) == Data(s)
  {
    hide Slice, PullSize;
    var n := Pulls(s);
    SliceContiguous(s.ring, s.pulled, n);
    SliceSplit(s.ring, s.pulled, n, s.produced - s.pulled - n);
  }

  lemma PulledBytes(s: Sys)
    requires Inv(s) && s.worker.Pull?
    ensures PullOk(s)
    ensures var t := PullStep(s);
            && Shape(t) && Stream(t) == Stream(s) && NextFences(t) == NextFences(s) && Rest(t) == Rest(s)
            && Pos(t) == Pos(s) && t.worker.Decode? && t.pulled == s.pulled + Pulls(s) > s.pulled
            && t.pulled <= t.produced
            && t == s.(buf := t.buf, pulled := t.pulled, worker := Decode)
  {
    hide Guarded, Carried, FencesAhead, Published, Wakes, Mode, Flow, CommandSize, PullSize, Data, FenceEnds, Leftover;
    PullFits(s);
    PulledData(s);
  }

  lemma PullKeepsInv(s: Sys)
    requires Inv(s) && s.worker.Pull?
    ensures PullOk(s) && Inv(PullStep(s))
  {
    PulledBytes(s);
    WorkingFrame(s, PullStep(s));
    hide Slice, Stream, CommandSize, CanTake, ChunkAt, Sizable, NextFences, Rest, PullSize, Wakes, PullStep;
  }

  lemma DecodedBytes(s: Sys)
    requires Inv(s) && s.worker.Decode?
    ensures var t := DecodeStep(s);
            && Shape(t) && Rest(t) == Rest(s) && NextFences(t) <= NextFences(s)
            && Sizable(Stream(t)) && |t.buf| <= 68 && CommandSize(t.g.cp, t.buf) == 0
  {
    hide Slice, CommandSize, CanTake, ChunkAt, Run, Leftover, FenceEnds, Scan, Guarded, Carried, FencesAhead, Published, Wakes, Sizable;
    var t := DecodeStep(s);
    var rest := Slice(s.ring, s.pulled, s.produced - s.pulled) + Ahead(s);
    assert Stream(s) == s.buf + rest;
    DecodeShift(s.g, s.buf, rest, Pos(s));
    LeftoverInPieces(s.g, s.buf, rest);
    LeftoverFacts(s.g, s.buf);
    assert Stream(t) == t.buf + rest;
  }

  lemma DecodeKeepsFences(s: Sys)
    requires Inv(s) && s.worker.Decode?
    ensures Shape(DecodeStep(s)) && FencesAhead(DecodeStep(s)) && Carried(DecodeStep(s))
  {
    DecodedBytes(s);
    hide Slice, Stream, CommandSize, CanTake, ChunkAt, Sizable, NextFences, Rest, Run, Leftover, Shape, Wakes, Guarded, Flow, Mode, Published;
    assert Ahead(DecodeStep(s)) == Ahead(s);
  }

  lemma DecodeKeepsInv(s: Sys)
    requires Inv(s) && s.worker.Decode?
    ensures Inv(DecodeStep(s))
  {
    DecodedBytes(s);
    DecodeKeepsFences(s);
    WorkingFrame(s, DecodeStep(s));
    hide Slice, Stream, CommandSize, CanTake, ChunkAt, Sizable, NextFences, Rest, Run, Leftover, Wakes, FencesAhead, Carried;
  }

  lemma FencesBeyondPos(s: Sys)
    requires Shape(s)
    ensures forall f :: f in NextFences(s) ==> Pos(s) < f
  {
    hide Slice;
    FenceIsLast(Stream(s), Pos(s));
  }

  lemma PublishedKeepsInv(s: Sys)
    requires Inv(s) && (s.worker.PubRetired? || s.worker.PubDone?)
    ensures Inv(ReportStep(s))
  {
    hide Slice, Stream, CommandSize, CanTake, ChunkAt, Sizable, NextFences, Rest;
    FencesBeyondPos(s);
    StagedIsShort(s);
    BytesFrame(s, ReportStep(s));
  }

  // ---- all steps ----------------------------------------------------------

  lemma WaitKeepsInv(s: Sys)
    requires Inv(s) && s.cpu.Waiting? && !s.cpu.stage.Asleep?
    ensures Inv(WaitStep(s))
  {
    hide Shape, Guarded, Flow, Mode, Carried, FencesAhead, Published, CpuSleeps, WorkerSleeps, Reached, Served;
    if s.cpu.stage.Check? && Served(s, s.cpu.goal) {
      match s.cpu.goal
      case Space(_, _, _) => SpaceReachedKeepsInv(s);
      case Fenced(_, _) => FenceReachedKeepsInv(s);
      case Handoff(_, _) => HandoffReachedKeepsInv(s);
      case Join => JoinReachedKeepsInv(s);
    } else if s.cpu.stage.Check? || s.cpu.stage.Arm? {
      AdvertiseKeepsInv(s);
    } else {
      CompareKeepsInv(s);
    }
  }

  lemma HeadKeepsInv(s: Sys)
    requires Inv(s) && s.cpu.Head?
    ensures Inv(HeadStep(s))
  {
    hide Inv, HeadStep, CanTake, ChunkAt, Scan;
    if !(s.cpu.drained < BUDGET && CanTake(s.arch)) {
      LoopEndKeepsInv(s);
    } else if |s.carry| + CHUNK > CARRY || Scan(s.carry + ChunkAt(s.arch)).poison {
      PoisonKeepsInv(s);
    } else {
      PushKeepsInv(s);
    }
  }

  lemma CpuKeepsInv(s: Sys)
    requires Inv(s) && CpuEnabled(s)
    ensures Inv(CpuStep(s))
  {
    hide Inv, HeadStep, WaitStep, CopyStep, PublishStep, HandshakeStep, AccountStep, SettleStep, SyncStep, ResumeStep, CopyOk;
    match s.cpu
    case Head(_, _) => HeadKeepsInv(s);
    case Waiting(_, _) => WaitKeepsInv(s);
    case Copy(_, _, _) => CopyKeepsInv(s);
    case Publish(_, _, _) => PublishKeepsInv(s);
    case Bump(_, _, _) => HandshakeKeepsInv(s);
    case WakeCheck(_, _, _) => HandshakeKeepsInv(s);
    case WakeCall(_, _, _) => HandshakeKeepsInv(s);
    case Account(_, _, _) => AccountKeepsInv(s);
    case Settled(_) => SettleKeepsInv(s);
    case Sync(_) => SyncKeepsInv(s);
    case Resume => ResumeKeepsInv(s);
  }

  lemma WorkerKeepsInv(s: Sys)
    requires Inv(s) && WorkerEnabled(s)
    ensures Inv(WorkerStep(s))
  {
    hide Inv, TopStep, PullStep, DecodeStep, ReportStep, ParkStep, PullOk;
    match s.worker
    case Top => TopKeepsInv(s);
    case Pull(_) => PullKeepsInv(s);
    case Decode => DecodeKeepsInv(s);
    case PubRetired => PublishedKeepsInv(s);
    case PubDone => PublishedKeepsInv(s);
    case Notify => NotifyKeepsInv(s);
    case WakeCpu => NotifyKeepsInv(s);
    case _ => ParkKeepsInv(s);
  }

  /** Every step of either thread, and everything the guest can do between
      ticks, keeps the invariant. */
  lemma StepKeepsInv(s: Sys, l: Label)
    requires Inv(s) && Enabled(s, l)
    ensures Inv(Do(s, l))
  {
    hide Inv, TickStart, CpuStep, WorkerStep, CpuEnabled, WorkerEnabled;
    match l
    case Guest(a) => GuestKeepsInv(s, a);
    case Tick => TickKeepsInv(s);
    case JoinCall => JoinCallKeepsInv(s);
    case Cpu => CpuKeepsInv(s);
    case Timeout => SleepEndsKeepsInv(s);
    case Work => WorkerKeepsInv(s);
    case GiveUp => GiveUpKeepsInv(s);
    case Spurious => SpuriousKeepsInv(s);
  }
}
