/** What every reachable state of the pipeline satisfies. */
module GxPipelineInv {
  import opened Bytes
  import opened GxDecode
  import opened GxStream
  import opened GxScanner
  import opened CommandFifo
  import opened GxSync
  import opened GxPipeline
  import opened GxFlow

  // ---- where the CPU is ---------------------------------------------------

  /** A chunk has been scanned but is not in the ring yet. */
  predicate Pushing(cpu: Cpu) {
    cpu.Copy? || cpu.Publish? || (cpu.Waiting? && cpu.goal.Space?)
  }

  /** The chunk is in the ring but the CP registers do not say so yet. */
  predicate Pushed(cpu: Cpu) {
    cpu.Bump? || cpu.WakeCheck? || cpu.WakeCall? || cpu.Account?
  }

  predicate AtHandoff(cpu: Cpu) {
    cpu.Waiting? && cpu.goal.Handoff?
  }

  /** The pipelined loop of this tick is over, its last fence not yet awaited. */
  predicate Ending(cpu: Cpu) {
    cpu.Settled? || (cpu.Waiting? && cpu.goal.Fenced?)
  }

  /** Budget used so far in this tick. */
  function Drained(cpu: Cpu): nat {
    match cpu
    case Head(d, _) => d
    case Copy(d, _, _) => d
    case Publish(d, _, _) => d
    case Bump(d, _, _) => d
    case WakeCheck(d, _, _) => d
    case WakeCall(d, _, _) => d
    case Account(d, _, _) => d
    case Settled(d) => d
    case Sync(d) => d
    case Waiting(_, Space(d, _, _)) => d
    case Waiting(_, Fenced(d, _)) => d
    case Waiting(_, Handoff(d, _)) => d
    case _ => 0
  }

  /** The last fence of this tick so far, 0 if there is none. */
  function CpuFence(cpu: Cpu): int {
    match cpu
    case Head(_, f) => f
    case Copy(_, f, e) => if e != 0 then e else f
    case Publish(_, f, e) => if e != 0 then e else f
    case Bump(_, f, e) => if e != 0 then e else f
    case WakeCheck(_, f, e) => if e != 0 then e else f
    case WakeCall(_, f, e) => if e != 0 then e else f
    case Account(_, f, e) => if e != 0 then e else f
    case Waiting(_, Space(_, f, e)) => if e != 0 then e else f
    case Waiting(_, Fenced(_, f)) => f
    case Waiting(_, Handoff(_, f)) => f
    case _ => 0
  }

  // ---- bytes not executed yet ---------------------------------------------

  /** The staging buffer is in the worker's hands. */
  predicate Busy(w: Worker) {
    w.Pull? || w.Decode? || w.PubRetired? || w.PubDone?
  }

  ghost predicate Shape(s: Sys) {
    && |s.ring| == RING && |s.buf| <= STAGING && s.g.depth == 0
    && 0 <= s.pulled <= s.produced <= s.pulled + RING
    && s.produced % CHUNK == 0 && s.pulled % CHUNK == 0
  }

  /** Staged bytes, then the bytes in the ring the worker has not pulled. */
  ghost function Data(s: Sys): seq<u8>
    requires Shape(s)
  {
    s.buf + Slice(s.ring, s.pulled, s.produced - s.pulled)
  }

  /** The chunk that has been scanned but not published. */
  function Ahead(s: Sys): seq<u8> {
    if Pushing(s.cpu) && CanTake(s.arch) then ChunkAt(s.arch) else []
  }

  ghost function Stream(s: Sys): seq<u8>
    requires Shape(s)
  {
    Data(s) + Ahead(s)
  }

  /** Stream offset of the next byte to execute. */
  function Pos(s: Sys): int {
    s.pulled - |s.buf|
  }

  /** Where the fences that are not executed yet end. */
  ghost function NextFences(s: Sys): set<int>
    requires Shape(s)
  {
    FenceEnds(Stream(s), Pos(s))
  }

  /** Bytes that will still be staged when the whole stream has been executed. */
  ghost function Rest(s: Sys): seq<u8>
    requires Shape(s)
  {
    Leftover(s.g, Stream(s))
  }

  ghost predicate Quiet(s: Sys) {
    s.pulled == s.produced == s.done && !Busy(s.worker)
  }

  // ---- the invariant ------------------------------------------------------

  /** Guards that hold between the test and the use of the chunk. */
  ghost predicate Guarded(s: Sys)
    requires Shape(s)
  {
    && (Pushing(s.cpu) || Pushed(s.cpu) ==> CanTake(s.arch) && Drained(s.cpu) < BUDGET)
    && (s.cpu.Copy? || s.cpu.Publish? ==> s.produced + CHUNK <= s.pulled + RING)
    && (s.cpu.Publish? && CanTake(s.arch) ==> Slice(s.ring, s.produced, CHUNK) == ChunkAt(s.arch))
    && (Ending(s.cpu) && !s.syncmode ==> Drained(s.cpu) >= BUDGET || !CanTake(s.arch))
    && (s.cpu.Waiting? && s.cpu.goal.Fenced? ==> s.cpu.goal.fence != 0)
  }

  /** What the worker has published, against what it has done. */
  ghost predicate Flow(s: Sys) {
    && s.retired <= s.pulled
    && (if s.worker.Decode? || s.worker.PubRetired? || s.worker.PubDone?
        then s.done < s.pulled else s.done == s.pulled)
    && (s.worker.Pull? ==> s.pulled < s.worker.seen <= s.produced && s.worker.seen % CHUNK == 0)
    && (!s.worker.Decode? ==> CommandSize(s.g.cp, s.buf) == 0)
  }

  function Limit(s: Sys): nat {
    if s.unsafe then CARRY else CARRY - CHUNK
  }

  /** Which thread owns the decoder, and what the scanner knows. */
  ghost predicate Mode(s: Sys)
    requires Shape(s)
  {
    && (s.cpu.Sync? || s.cpu.Resume? ==> s.syncmode)
    && (s.cpu.Head? || Pushing(s.cpu) || Pushed(s.cpu) || AtHandoff(s.cpu) ==> !s.syncmode)
    && (s.poisoned ==> s.unsafe && !s.cpu.Resume? && (s.syncmode || AtHandoff(s.cpu)))
    && (s.syncmode ==> Quiet(s))
    && (!s.syncmode ==> Sizable(Stream(s)) || (Quiet(s) && Ahead(s) == [] && |s.buf| <= CARRY))
  }

  /** Outside synchronous mode the carry is the decoder's future leftover. */
  ghost predicate Carried(s: Sys)
    requires Shape(s)
  {
    !s.syncmode && !AtHandoff(s.cpu) ==>
      && s.carry == Rest(s)
      && s.scanPos == s.produced + |Ahead(s)| - |s.carry|
      && |s.carry| <= Limit(s)
  }

  /** Every fence not executed yet lies beyond what is published as retired and
      not beyond the fence this tick will wait for. */
  ghost predicate FencesAhead(s: Sys)
    requires Shape(s)
  {
    && (forall f :: f in NextFences(s) ==> 0 < f && s.retired < f <= CpuFence(s.cpu))
    && (CpuFence(s.cpu) != 0 ==>
          CpuFence(s.cpu) <= s.produced + |Ahead(s)| - |Rest(s)|)
  }

  /** How stale the published `retired` can be. */
  ghost predicate Published(s: Sys) {
    !s.worker.Decode? && !s.worker.PubRetired? ==>
      && s.retired >= s.pulled - CARRY
      && (s.retired == Pos(s) || CpuFence(s.cpu) == 0 || CpuFence(s.cpu) > s.pulled)
  }

  /** A worker that has decided to sleep on an epoch has seen every chunk
      published before it, or the wake for it is on its way. */
  ghost predicate WorkerSleeps(s: Sys) {
    && (s.parked <==> s.worker.Comparing? || s.worker.Sleeping? || s.worker.Unpark?)
    && (s.worker.Park? || s.worker.Comparing? || s.worker.Sleeping? ==>
          && s.worker.epoch <= s.epoch
          && (s.produced != s.pulled ==> s.worker.epoch < s.epoch || s.cpu.Bump?))
    && (s.worker.Spin? ==> s.worker.epoch <= s.epoch)
    && (s.worker.Sleeping? && s.worker.epoch < s.epoch ==> s.cpu.WakeCheck? || s.cpu.WakeCall?)
  }

  /** A sleeping CPU watches a value that is not enough and has not changed, or
      the wake for the change is on its way. */
  ghost predicate CpuSleeps(s: Sys) {
    && (s.waiting <==> s.cpu.Waiting? && (s.cpu.stage.Compare? || s.cpu.stage.Asleep? || s.cpu.stage.Disarm?))
    && (s.cpu.Waiting? && (s.cpu.stage.Arm? || s.cpu.stage.Compare? || s.cpu.stage.Asleep?) ==>
          s.cpu.stage.seen < Needed(s, s.cpu.goal))
    && (s.cpu.Waiting? && s.cpu.stage.Asleep? && Watched(s, s.cpu.goal) != s.cpu.stage.seen ==>
          WakeComing(s))
  }

  /** Neither thread is lost: no failure, no missed wake. */
  ghost predicate Wakes(s: Sys) {
    && !s.failed && !s.worker.Dead? && !s.cpu.Aborted?
    && WorkerSleeps(s) && CpuSleeps(s)
  }

  /** The worker has changed what the CPU watches and has yet to look for sleepers. */
  ghost predicate WakeComing(s: Sys)
    requires s.cpu.Waiting?
  {
    || s.worker.Notify? || s.worker.WakeCpu?
    || (s.worker.PubDone? && (s.cpu.goal.Space? || s.cpu.goal.Fenced?))
  }

  ghost predicate Inv(s: Sys) {
    && Shape(s) && Guarded(s) && Flow(s) && Mode(s) && Carried(s)
    && FencesAhead(s) && Published(s) && Wakes(s)
  }

  lemma ShapeHere(s: Sys)
    requires Inv(s)
    ensures Shape(s)
  {
  }

  /** Two states that agree on everything the byte stream is made of. */
  predicate SameBytes(s: Sys, t: Sys) {
    && t.g == s.g && t.buf == s.buf && t.ring == s.ring
    && t.produced == s.produced && t.pulled == s.pulled && Ahead(t) == Ahead(s)
  }

  lemma BytesFrame(s: Sys, t: Sys)
    requires Shape(s) && SameBytes(s, t)
    ensures Shape(t) && Stream(t) == Stream(s) && NextFences(t) == NextFences(s) && Rest(t) == Rest(s)
    ensures Pos(t) == Pos(s)
  {
  }

  lemma InitInv(arch: Arch, g: Gx, ring: seq<u8>, unsafe: bool)
    requires |ring| == RING && g.depth == 0
    ensures Inv(Init(arch, g, ring, unsafe))
  {
    var s := Init(arch, g, ring, unsafe);
    assert Stream(s) == [];
    PartialFacts(g, [], 0);
  }
}
