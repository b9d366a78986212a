/** The CPU/GX pipeline as a system of interleaved steps.

    The CPU thread drains the FIFO, scans each chunk and pushes it through a
    single-producer single-consumer ring; a worker thread pulls the bytes and
    runs the decoder.  Every read or write of a shared variable is one step, in
    program order on each thread, and the memory is sequentially consistent. */
module GxPipeline {
  import opened Bytes
  import opened GxDecode
  import opened GxScanner
  import opened CommandFifo
  import opened GxSync

  const RING := 0x10_0000   // bytes in the ring; a multiple of 32, so chunks never wrap
  const CARRY := 128        // bytes in the scanner's carry

  /** The four places where the CPU waits for the worker, with what it does next:
      ring space before a push, the tick's last fence, the handoff to
      synchronous mode, and a full join between ticks. */
  datatype Goal =
    | Space(drained: nat, fence: int, end: int)
    | Fenced(drained: nat, fence: int)
    | Handoff(drained: nat, fence: int)
    | Join

  /** Progress of one wait: test, advertise, compare-and-sleep, withdraw. */
  datatype Stage = Check | Arm(seen: int) | Compare(seen: int) | Asleep(seen: int) | Disarm

  datatype Cpu =
    | Idle                                          // between ticks
    | Head(drained: nat, fence: int)                // top of the pipelined loop
    | Waiting(stage: Stage, goal: Goal)
    | Copy(drained: nat, fence: int, end: int)      // chunk into the ring
    | Publish(drained: nat, fence: int, end: int)   // produced += 32
    | Bump(drained: nat, fence: int, end: int)      // epoch += 1
    | WakeCheck(drained: nat, fence: int, end: int) // read parked
    | WakeCall(drained: nat, fence: int, end: int)  // wake the worker
    | Account(drained: nat, fence: int, end: int)   // advance the CP read side
    | Settled(drained: nat)                         // fences of this tick retired
    | Sync(drained: nat)                            // top of the synchronous loop
    | Resume
    | Aborted

  datatype Worker =
    | Top | LoadEpoch | Spin(epoch: int) | Park(epoch: int) | Comparing(epoch: int)
    | Sleeping(epoch: int) | Unpark | Reload
    | Pull(seen: int) | Decode | PubRetired | PubDone | Notify | WakeCpu | Dead

  datatype Sys = Sys(
    arch: Arch,
    g: Gx, buf: seq<u8>,                        // decoder and staging
    ring: seq<u8>, produced: int, retired: int, done: int,
    parked: bool, waiting: bool, epoch: int, failed: bool,
    carry: seq<u8>, scanPos: int,               // scanner
    poisoned: bool, syncmode: bool, unsafe: bool,
    pulled: int,                                // worker-private
    cpu: Cpu, worker: Worker)

  function Init(arch: Arch, g: Gx, ring: seq<u8>, unsafe: bool): Sys {
    Sys(arch, g, [], ring, 0, 0, 0, false, false, 0, false, [], 0, false, false, unsafe, 0, Idle, Top)
  }

  // ---- CPU thread ---------------------------------------------------------

  /** The variable a wait watches and the value it needs. */
  function Watched(s: Sys, goal: Goal): int {
    if goal.Space? || goal.Fenced? then s.retired else s.done
  }

  function Needed(s: Sys, goal: Goal): int {
    match goal
    case Space(_, _, _) => s.produced + CHUNK - RING
    case Fenced(_, f) => f
    case _ => s.produced
  }

  predicate Served(s: Sys, goal: Goal) {
    Watched(s, goal) >= Needed(s, goal)
  }

  /** gx_scan_chunk on a chunk of 32 bytes, and the loop head around it. */
  function HeadStep(s: Sys): Sys
    requires s.cpu.Head?
  {
    var d, f := s.cpu.drained, s.cpu.fence;
    if d < BUDGET && CanTake(s.arch) then
      if |s.carry| + CHUNK > CARRY then
        s.(poisoned := true, cpu := Waiting(Check, Handoff(d, f)))
      else
        var all := s.carry + ChunkAt(s.arch);
        var scan := Scan(all);
        var end := if scan.fence == 0 then 0 else s.scanPos + scan.fence;
        s.(carry := all[scan.used..], scanPos := s.scanPos + scan.used,
           cpu := Waiting(Check, if scan.poison then Handoff(d, f) else Space(d, f, end)))
    else s.(cpu := AfterLoop(d, f))
  }

  /** Where the CPU goes when the pipelined loop of a tick is over. */
  function AfterLoop(drained: nat, fence: int): Cpu {
    if fence != 0 then Waiting(Check, Fenced(drained, fence)) else Settled(drained)
  }

  function Reached(s: Sys, goal: Goal): Sys {
    match goal
    case Space(d, f, e) => s.(cpu := Copy(d, f, e))
    case Fenced(d, _) => s.(cpu := Settled(d))
    case Handoff(d, f) => s.(syncmode := true, cpu := AfterLoop(d, f))
    case Join => s.(cpu := Idle)
  }

  function WaitStep(s: Sys): Sys
    requires s.cpu.Waiting? && !s.cpu.stage.Asleep?
  {
    var goal := s.cpu.goal;
    match s.cpu.stage
    case Check =>
      if s.failed then s.(cpu := Aborted)
      else if Served(s, goal) then Reached(s, goal)
      else s.(cpu := Waiting(Arm(Watched(s, goal)), goal))
    case Arm(v) => s.(waiting := true, cpu := Waiting(Compare(v), goal))
    case Compare(v) =>
      s.(cpu := Waiting(if Watched(s, goal) == v then Asleep(v) else Disarm, goal))
    case Disarm => s.(waiting := false, cpu := Waiting(Check, goal))
  }

  predicate CopyOk(s: Sys) {
    CanTake(s.arch) && |s.ring| == RING && s.produced % RING + CHUNK <= RING
  }

  function CopyStep(s: Sys): Sys
    requires s.cpu.Copy? && CopyOk(s)
  {
    s.(ring := Overwrite(s.ring, s.produced % RING, ChunkAt(s.arch)),
       cpu := Publish(s.cpu.drained, s.cpu.fence, s.cpu.end))
  }

  function PublishStep(s: Sys): Sys
    requires s.cpu.Publish?
  {
    s.(produced := s.produced + CHUNK, cpu := Bump(s.cpu.drained, s.cpu.fence, s.cpu.end))
  }

  /** The epoch is advanced, then the worker woken if it says it is parked. */
  function HandshakeStep(s: Sys): Sys
    requires s.cpu.Bump? || s.cpu.WakeCheck? || s.cpu.WakeCall?
  {
    match s.cpu
    case Bump(d, f, e) => s.(epoch := s.epoch + 1, cpu := WakeCheck(d, f, e))
    case WakeCheck(d, f, e) => s.(cpu := if s.parked then WakeCall(d, f, e) else Account(d, f, e))
    case WakeCall(d, f, e) =>
      s.(worker := if s.worker.Sleeping? then Unpark else s.worker, cpu := Account(d, f, e))
  }

  function AccountStep(s: Sys): Sys
    requires s.cpu.Account?
  {
    s.(arch := TakeChunk(s.arch),
       cpu := Head(s.cpu.drained + CHUNK, if s.cpu.end != 0 then s.cpu.end else s.cpu.fence))
  }

  function SettleStep(s: Sys): Sys
    requires s.cpu.Settled?
  {
    s.(cpu := if !s.syncmode && !s.poisoned then Idle else Sync(s.cpu.drained))
  }

  function SyncStep(s: Sys): Sys
    requires s.cpu.Sync?
  {
    var m := Machine(s.arch, s.g, s.buf);
    if SyncGuard(m, s.cpu.drained) then
      var n := SyncChunk(m);
      s.(arch := n.arch, g := n.g, buf := n.buf, cpu := Sync(s.cpu.drained + CHUNK))
    else s.(cpu := if s.syncmode && !s.poisoned then Resume else Idle)
  }

  /** The resume gate: the leftover must leave room for one more gather.  The
      unsafe gate only asks that the leftover itself fits. */
  predicate CanResume(s: Sys) {
    |s.buf| <= if s.unsafe then CARRY else CARRY - CHUNK
  }

  function ResumeStep(s: Sys): Sys
    requires s.cpu.Resume?
  {
    if CanResume(s) then
      s.(carry := s.buf, scanPos := s.produced - |s.buf|, syncmode := false, cpu := Idle)
    else s.(cpu := Idle)
  }

  predicate CpuEnabled(s: Sys) {
    match s.cpu
    case Idle => false
    case Aborted => false
    case Waiting(stage, _) => !stage.Asleep?
    case Copy(_, _, _) => CopyOk(s)
    case _ => true
  }

  function CpuStep(s: Sys): Sys
    requires CpuEnabled(s)
  {
    match s.cpu
    case Head(_, _) => HeadStep(s)
    case Waiting(_, _) => WaitStep(s)
    case Copy(_, _, _) => CopyStep(s)
    case Publish(_, _, _) => PublishStep(s)
    case Bump(_, _, _) => HandshakeStep(s)
    case WakeCheck(_, _, _) => HandshakeStep(s)
    case WakeCall(_, _, _) => HandshakeStep(s)
    case Account(_, _, _) => AccountStep(s)
    case Settled(_) => SettleStep(s)
    case Sync(_) => SyncStep(s)
    case Resume => ResumeStep(s)
  }

  /** gcn_gx_tick is called. */
  function TickStart(s: Sys): Sys
    requires s.cpu.Idle?
  {
    if !s.arch.cp.readEnable then s
    else if s.failed then s.(cpu := Aborted)
    else s.(cpu := if s.poisoned || s.syncmode then Sync(0) else Head(0, 0))
  }

  // ---- worker thread ------------------------------------------------------

  /** `n` bytes of the ring from stream offset `from`. */
  function Slice(ring: seq<u8>, from: int, n: nat): (r: seq<u8>)
    requires |ring| == RING
    ensures |r| == n
  {
    seq(n, i requires 0 <= i < n => ring[(from + i) % RING])
  }

  /** Bytes the worker takes at once: one contiguous run that fits the staging
      buffer, given how much is staged, its offset and the `produced` it read. */
  function PullSize(staged: nat, pulled: int, seen: int): int {
    var room := STAGING - staged;
    var avail := seen - pulled;
    var contiguous := RING - pulled % RING;
    var take := if avail < contiguous then avail else contiguous;
    if take > room then room - room % CHUNK else take
  }

  predicate PullOk(s: Sys) {
    && s.worker.Pull? && |s.ring| == RING
    && 0 <= PullSize(|s.buf|, s.pulled, s.worker.seen) <= RING - s.pulled % RING
  }

  function PullStep(s: Sys): Sys
    requires PullOk(s)
  {
    var n := PullSize(|s.buf|, s.pulled, s.worker.seen);
    if n == 0 then s.(failed := true, worker := Dead)
    else
      var at := s.pulled % RING;
      s.(buf := s.buf + s.ring[at..at + n], pulled := s.pulled + n, worker := Decode)
  }

  predicate WorkerEnabled(s: Sys) {
    match s.worker
    case Sleeping(_) => false
    case Dead => false
    case Pull(_) => PullOk(s)
    case _ => true
  }

  /** Nothing was found: remember the epoch, look again, park, sleep, start over. */
  predicate Idling(w: Worker) {
    w.LoadEpoch? || w.Spin? || w.Park? || w.Comparing? || w.Unpark? || w.Reload?
  }

  function ParkNext(w: Worker, empty: bool, epoch: int): (r: Worker)
    requires Idling(w)
    ensures Idling(r) || r.Top? || r.Sleeping?
  {
    match w
    case LoadEpoch => Spin(epoch)
    case Spin(e) => if empty then Spin(e) else Top
    case Park(e) => Comparing(e)
    case Comparing(e) => if epoch == e then Sleeping(e) else Unpark
    case Unpark => Reload
    case Reload => Spin(epoch)
  }

  function ParkStep(s: Sys): Sys
    requires Idling(s.worker)
  {
    s.(parked := s.worker.Park? || (s.parked && !s.worker.Unpark?),
       worker := ParkNext(s.worker, s.produced == s.pulled, s.epoch))
  }

  function TopStep(s: Sys): Sys {
    s.(worker := if s.produced == s.pulled then LoadEpoch else Pull(s.produced))
  }

  function DecodeStep(s: Sys): Sys {
    s.(g := Run(s.g, s.buf).g, buf := Leftover(s.g, s.buf), worker := PubRetired)
  }

  /** Publish how far decoding and processing got, then wake a waiting CPU. */
  function ReportStep(s: Sys): Sys
    requires s.worker.PubRetired? || s.worker.PubDone? || s.worker.Notify? || s.worker.WakeCpu?
  {
    match s.worker
    case PubRetired => s.(retired := s.pulled - |s.buf|, worker := PubDone)
    case PubDone => s.(done := s.pulled, worker := Notify)
    case Notify => s.(worker := if s.waiting then WakeCpu else Top)
    case WakeCpu => s.(cpu := Woken(s.cpu), worker := Top)
  }

  function WorkerStep(s: Sys): Sys
    requires WorkerEnabled(s)
  {
    match s.worker
    case Top => TopStep(s)
    case Pull(_) => PullStep(s)
    case Decode => DecodeStep(s)
    case PubRetired => ReportStep(s)
    case PubDone => ReportStep(s)
    case Notify => ReportStep(s)
    case WakeCpu => ReportStep(s)
    case _ => ParkStep(s)
  }

  function Woken(cpu: Cpu): Cpu {
    if cpu.Waiting? && cpu.stage.Asleep? then Waiting(Disarm, cpu.goal) else cpu
  }

  // ---- runs ---------------------------------------------------------------

  /** What can happen next.  `Guest` is everything the guest does between ticks:
      it may leave the FIFO registers and RAM in any state at all.  `GiveUp` is
      the worker deciding to park after finding nothing; `Timeout` and
      `Spurious` are sleeps that end without a wake. */
  datatype Label = Guest(arch: Arch) | Tick | JoinCall | Cpu | Timeout | Work | GiveUp | Spurious

  predicate Enabled(s: Sys, l: Label) {
    match l
    case Guest(_) => s.cpu.Idle?
    case Tick => s.cpu.Idle?
    case JoinCall => s.cpu.Idle?
    case Cpu => CpuEnabled(s)
    case Timeout => s.cpu.Waiting? && s.cpu.stage.Asleep?
    case Work => WorkerEnabled(s)
    case GiveUp => s.worker.Spin? && s.produced == s.pulled
    case Spurious => s.worker.Sleeping?
  }

  function Do(s: Sys, l: Label): Sys
    requires Enabled(s, l)
  {
    match l
    case Guest(a) => s.(arch := a)
    case Tick => TickStart(s)
    case JoinCall => s.(cpu := Waiting(Check, Join))
    case Cpu => CpuStep(s)
    case Timeout => s.(cpu := Woken(s.cpu))
    case Work => WorkerStep(s)
    case GiveUp => s.(worker := Park(s.worker.epoch))
    case Spurious => s.(worker := Unpark)
  }

  /** `ls` is a run of the system from `s`. */
  ghost predicate IsRun(s: Sys, ls: seq<Label>)
    decreases |ls|
  {
    ls != [] ==> Enabled(s, ls[0]) && IsRun(Do(s, ls[0]), ls[1..])
  }

  ghost function After(s: Sys, ls: seq<Label>): Sys
    requires IsRun(s, ls)
    decreases |ls|
  {
    if ls == [] then s else After(Do(s, ls[0]), ls[1..])
  }

  /** The synchronous machine driven by the same guest and the same ticks. */
  function SyncDo(m: Machine, l: Label): Machine {
    match l
    case Guest(a) => m.(arch := a)
    case Tick => SyncTick(m)
    case _ => m
  }

  function SyncAfter(m: Machine, ls: seq<Label>): Machine
    decreases |ls|
  {
    if ls == [] then m else SyncAfter(SyncDo(m, ls[0]), ls[1..])
  }
}
