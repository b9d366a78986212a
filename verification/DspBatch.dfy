/** DSP cycle batching (`dsp.c`): cycles the CPU ticks are owed to the DSP core
    and executed later, inline by the CPU or by a worker thread it grants them
    to.  A system of interleaved steps, sequentially consistent. */
module DspBatch {
  import opened Bytes

  const RATIO := 6   // CPU cycles per DSP cycle; only whole multiples are run

  const INT_MAX := 0x7FFF_FFFF
  const MOST := 0x8000_0003   // the largest debt whose whole part is an int

  /** Progress of a drain: test, advertise, compare-and-sleep, withdraw. */
  datatype Stage = Check | Arm(seen: int) | Compare(seen: int) | Asleep(seen: int) | Disarm

  /** What a drain is for: a flush, or a read that declines to flush. */
  datatype Then = Flushing(observe: bool) | Looking

  datatype Cpu =
    | Idle
    | Capped(halted: bool)           // a tick has pushed the debt to the cap
    | Granting(whole: int)           // store granted
    | WakeCheck | WakeCall           // read parked, wake the worker
    | Draining(stage: Stage, next: Then)
    | Residue(observe: bool)         // run the whole part of the debt inline
    | Observing                      // touch mailboxes, control or ARAM

  datatype Worker =
    | Top | Spin | Park | Comparing | Sleeping | Unpark
    | Run(upTo: int)                 // execute the core
    | Publish | Notify | WakeCpu

  /** A call of the core: the cycles it was made for, and the argument that the
      cast to a signed 32-bit int made of them. */
  datatype Call = Call(due: int, arg: int)

  /** The C cast of a 32- or 64-bit count to int. */
  function Narrow(n: int): int {
    if n % WORD <= INT_MAX then n % WORD else n % WORD - WORD
  }

  function Handed(n: int): Call {
    Call(n, Narrow(n))
  }

  /** CPU cycles the core runs in a call: the argument divided by six toward
      zero, if that is positive. */
  function Ran(c: Call): int {
    if c.arg >= RATIO then Whole(c.arg) else 0
  }

  /** `calls` is every call of the core so far; `ticked`, `discarded` and `wraps`
      are history.  `owed` is a 32-bit word. */
  datatype Sys = Sys(
    threaded: bool, batch: u32, flushMin: u32,
    owed: u32, granted: int, consumed: int, parked: bool, waiting: bool,
    mine: int, cpu: Cpu, worker: Worker,
    calls: seq<Call>, ticked: int, discarded: int, wraps: nat)

  function Init(threaded: bool, batch: u32, flushMin: u32): Sys {
    Sys(threaded, batch, flushMin, 0, 0, 0, false, false, 0, Idle, Top, [], 0, 0, 0)
  }

  function Whole(n: int): int {
    n - n % RATIO
  }

  // ---- CPU thread ---------------------------------------------------------

  /** gcn_dsp_tick: accrue, and go on at the cap.  `halted` is what the core
      would answer if asked whether it is halted. */
  function TickStep(s: Sys, cycles: u32, halted: bool): Sys {
    var sum := s.owed + cycles;
    var t := s.(owed := sum % WORD, ticked := s.ticked + cycles, wraps := s.wraps + sum / WORD);
    if t.owed < s.batch then t
    else t.(cpu := if s.threaded then Capped(halted) else Residue(false))
  }

  /** The halted core is peeked at only when the worker has nothing to do. */
  function CapStep(s: Sys): Sys
    requires s.cpu.Capped?
  {
    var whole := Whole(s.owed);
    if whole == 0 then s.(cpu := Idle)
    else if s.consumed == s.granted && s.cpu.halted then
      s.(owed := s.owed % RATIO, discarded := s.discarded + whole, cpu := Idle)
    else s.(owed := s.owed % RATIO, cpu := Granting(whole))
  }

  function GrantStep(s: Sys): Sys
    requires s.cpu.Granting? || s.cpu.WakeCheck? || s.cpu.WakeCall?
  {
    match s.cpu
    case Granting(w) => s.(granted := s.granted + w, cpu := WakeCheck)
    case WakeCheck => s.(cpu := if s.parked then WakeCall else Idle)
    case WakeCall => s.(worker := if s.worker.Sleeping? then Unpark else s.worker, cpu := Idle)
  }

  function DrainStep(s: Sys): Sys
    requires s.cpu.Draining? && !s.cpu.stage.Asleep?
  {
    var next := s.cpu.next;
    match s.cpu.stage
    case Check =>
      if s.consumed == s.granted then s.(cpu := Drained(next))
      else s.(cpu := Draining(Arm(s.consumed), next))
    case Arm(v) => s.(waiting := true, cpu := Draining(Compare(v), next))
    case Compare(v) => s.(cpu := Draining(if s.consumed == v then Asleep(v) else Disarm, next))
    case Disarm => s.(waiting := false, cpu := Draining(Check, next))
  }

  function Drained(next: Then): Cpu {
    match next
    case Flushing(observe) => Residue(observe)
    case Looking => Observing
  }

  function FlushStart(s: Sys, observe: bool): Cpu {
    if s.threaded then Draining(Check, Flushing(observe)) else Residue(observe)
  }

  /** Run the whole part of the debt on the core; what is left stays owed. */
  function ResidueStep(s: Sys): Sys
    requires s.cpu.Residue?
  {
    var whole := Whole(s.owed);
    var after := if s.cpu.observe then Observing else Idle;
    if whole == 0 then s.(cpu := after)
    else s.(owed := s.owed % RATIO, calls := s.calls + [Handed(whole)], cpu := after)
  }

  predicate CpuEnabled(s: Sys) {
    !s.cpu.Idle? && !(s.cpu.Draining? && s.cpu.stage.Asleep?)
  }

  function CpuStep(s: Sys): Sys
    requires CpuEnabled(s)
  {
    match s.cpu
    case Capped(_) => CapStep(s)
    case Granting(_) => GrantStep(s)
    case WakeCheck => GrantStep(s)
    case WakeCall => GrantStep(s)
    case Draining(_, _) => DrainStep(s)
    case Residue(_) => ResidueStep(s)
    case Observing => s.(cpu := Idle)
  }

  // ---- worker thread ------------------------------------------------------

  predicate WorkerEnabled(s: Sys) {
    !s.worker.Sleeping?
  }

  function Woken(cpu: Cpu): Cpu {
    if cpu.Draining? && cpu.stage.Asleep? then Draining(Disarm, cpu.next) else cpu
  }

  function WorkerStep(s: Sys): Sys
    requires WorkerEnabled(s)
  {
    match s.worker
    case Top => s.(worker := if s.granted == s.mine then Spin else Run(s.granted))
    case Spin => s.(worker := if s.granted == s.mine then Spin else Top)
    case Park => s.(parked := true, worker := Comparing)
    case Comparing => s.(worker := if s.granted == s.mine then Sleeping else Unpark)
    case Unpark => s.(parked := false, worker := Spin)
    case Run(t) => s.(calls := s.calls + [Handed(t - s.mine)], mine := t, worker := Publish)
    case Publish => s.(consumed := s.mine, worker := Notify)
    case Notify => s.(worker := if s.waiting then WakeCpu else Top)
    case WakeCpu => s.(cpu := Woken(s.cpu), worker := Top)
  }

  // ---- runs ---------------------------------------------------------------

  /** `Read` and `Write` are DSP register accesses, `Peek` a read of the
      interrupt registers of the PI, which touches no core state. */
  datatype Label = Tick(cycles: u32, halted: bool) | Read | Write | Peek | Cpu | Work | GiveUp | Spurious

  predicate Enabled(s: Sys, l: Label) {
    match l
    case Tick(_, _) => s.cpu.Idle?
    case Read => s.cpu.Idle?
    case Write => s.cpu.Idle?
    case Peek => s.cpu.Idle?
    case Cpu => CpuEnabled(s)
    case Work => WorkerEnabled(s)
    case GiveUp => s.worker.Spin? && s.granted == s.mine
    case Spurious => s.worker.Sleeping? || (s.cpu.Draining? && s.cpu.stage.Asleep?)
  }

  function Do(s: Sys, l: Label): Sys
    requires Enabled(s, l)
  {
    match l
    case Tick(n, halted) => TickStep(s, n, halted)
    case Read =>
      s.(cpu := if s.owed >= s.flushMin then FlushStart(s, true)
                else if s.threaded then Draining(Check, Looking)
                else Observing)
    case Write => s.(cpu := FlushStart(s, true))
    case Peek => s.(cpu := if s.owed >= s.flushMin then FlushStart(s, false) else Idle)
    case Cpu => CpuStep(s)
    case Work => WorkerStep(s)
    case GiveUp => s.(worker := Park)
    case Spurious => if s.worker.Sleeping? then s.(worker := Unpark) else s.(cpu := Woken(s.cpu))
  }

  ghost predicate IsRun(s: Sys, ls: seq<Label>)
    decreases |ls|
  {
    ls != [] ==> Enabled(s, ls[0]) && IsRun(Do(s, ls[0]), ls[1..])
  }

  ghost function After(s: Sys, ls: seq<Label>): Sys
    requires IsRun(s, ls)
    decreases |ls|
  {
    if ls == [] then s else After(Do(s, ls[0]), ls[1..])
  }

  // ---- the invariant ------------------------------------------------------

  /** Cycles run, and cycles handed to the core and not run, over all calls. */
  function Executed(calls: seq<Call>): int {
    if calls == [] then 0 else Executed(calls[..|calls| - 1]) + Ran(calls[|calls| - 1])
  }

  function Lost(calls: seq<Call>): int {
    if calls == [] then 0
    else Lost(calls[..|calls| - 1]) + calls[|calls| - 1].due - Ran(calls[|calls| - 1])
  }

  lemma CallSnoc(calls: seq<Call>, c: Call)
    ensures Executed(calls + [c]) == Executed(calls) + Ran(c)
    ensures Lost(calls + [c]) == Lost(calls) + c.due - Ran(c)
  {
    assert (calls + [c])[..|calls|] == calls;
  }

  predicate Proper(c: Call) {
    c.due > 0 && c.due % RATIO == 0 && c.arg == Narrow(c.due)
  }

  predicate AllProper(calls: seq<Call>) {
    forall i :: 0 <= i < |calls| ==> Proper(calls[i])
  }

  /** Every call was for no more than an int holds. */
  predicate AllFit(calls: seq<Call>) {
    forall i :: 0 <= i < |calls| ==> calls[i].due <= INT_MAX
  }

  function Pending(cpu: Cpu): int {
    if cpu.Granting? then cpu.whole else 0
  }

  /** Cycles run or still to be run, or spared while the core was halted. */
  function Accounted(s: Sys): int {
    Executed(s.calls) + (s.granted - s.mine) + Pending(s.cpu) + s.owed + s.discarded
  }

  /** Every cycle ticked is accounted for, lost in a cast, or gone in a wrap. */
  ghost predicate Conserved(s: Sys) {
    && Accounted(s) + Lost(s.calls) + WORD * s.wraps == s.ticked
    && AllProper(s.calls)
    && s.discarded % RATIO == 0
    && (s.cpu.Granting? ==> s.cpu.whole > 0 && s.cpu.whole % RATIO == 0)
  }

  ghost predicate Flow(s: Sys) {
    && 0 <= s.consumed && 0 <= s.mine <= s.granted && s.granted % RATIO == 0 && s.mine % RATIO == 0
    && (if s.worker.Publish? then s.consumed < s.mine else s.consumed == s.mine)
    && (s.worker.Run? ==> s.mine < s.worker.upTo <= s.granted && s.worker.upTo % RATIO == 0)
    && (s.cpu.Residue? || s.cpu.Observing? ==> s.consumed == s.granted)
    && s.batch >= RATIO
    && (s.cpu.Residue? || s.cpu.Capped? || s.owed < s.batch)
    && (!s.threaded ==> s.granted == 0 && !s.cpu.Capped? && !s.cpu.Granting? && !s.cpu.Draining?)
  }

  ghost predicate Wakes(s: Sys) {
    && (s.parked <==> s.worker.Comparing? || s.worker.Sleeping? || s.worker.Unpark?)
    && (s.worker.Sleeping? && s.granted != s.mine ==> s.cpu.WakeCheck? || s.cpu.WakeCall?)
    && (s.waiting <==> s.cpu.Draining? && (s.cpu.stage.Compare? || s.cpu.stage.Asleep? || s.cpu.stage.Disarm?))
    && (s.cpu.Draining? && (s.cpu.stage.Arm? || s.cpu.stage.Compare? || s.cpu.stage.Asleep?) ==>
          s.cpu.stage.seen != s.granted)
    && (s.cpu.Draining? && s.cpu.stage.Asleep? && s.consumed != s.cpu.stage.seen ==>
          s.worker.Notify? || s.worker.WakeCpu?)
  }

  ghost predicate Inv(s: Sys) {
    Conserved(s) && Flow(s) && Wakes(s)
  }

  lemma InitInv(threaded: bool, batch: u32, flushMin: u32)
    requires batch >= RATIO
    ensures Inv(Init(threaded, batch, flushMin))
  {
  }

  lemma WholeFacts(n: nat)
    ensures Whole(n) + n % RATIO == n && Whole(n) % RATIO == 0 && 0 <= Whole(n) <= n
    ensures Whole(n) == 0 <==> n < RATIO
  {
  }
}
