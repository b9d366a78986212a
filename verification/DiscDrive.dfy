/** The disc drive (`di.c`): commands, their delayed completion, and the life of
    a mounted image.  The safety result is stated against a history that does
    not mention the drive's state at all. */
module DiscDrive {
  import opened Bytes
  import opened Wrappers

  datatype State = Ready | ReadyNoReads | CoverOpened | DiscChange | NoMedium | MotorStopped | IdNotRead

  datatype Interrupt = DeviceError | Complete | Break | CoverChange

  datatype Disc = Empty | Image(bytes: seq<u8>)

  datatype Pending = NoRead | Read(offset: nat, length: nat, addr: u32)

  /** Status and cover registers as the bits they hold. */
  datatype Status = Status(de: bool, tc: bool, brk: bool, deMask: bool, tcMask: bool, brkMask: bool, breaking: bool)
  datatype Cover = Cover(open: bool, changed: bool, mask: bool)

  datatype Drive = Drive(
    disc: Disc, state: State, error: u32, dtk: bool,
    status: Status, cover: Cover, irq: bool,
    cmd0: u32, cmd1: u32, cmd2: u32, mar: u32, len: u32, control: u32, imm: u32,
    pending: bool, intr: Interrupt, cycles: nat, read: Pending)

  const ERR_NONE := 0
  const ERR_MOTOR_STOPPED := 0x20400
  const ERR_NO_DISC_ID := 0x20401
  const ERR_NO_MEDIUM := 0x23A00
  const ERR_INVALID_COMMAND := 0x52000
  const ERR_NO_AUDIO_BUF := 0x52001
  const ERR_BLOCK_OOB := 0x52100
  const ERR_INVALID_PERIOD := 0x52402
  const ERR_MEDIUM_CHANGED := 0x62800

  const CMD_INQUIRY := 0x12
  const CMD_READ := 0xA8
  const CMD_SEEK := 0xAB
  const CMD_REQUEST_ERROR := 0xE0
  const CMD_AUDIO_STREAM := 0xE1
  const CMD_AUDIO_STATUS := 0xE2
  const CMD_STOP_MOTOR := 0xE3
  const CMD_AUDIO_CONFIG := 0xE4
  const SUB_SECTOR := 0x00
  const SUB_DISC_ID := 0x40

  const MIN_LATENCY := 300 * 486

  /** Bytes of RAM from a DMA address on, if it is RAM at all. */
  type Memory = u32 -> Option<nat>

  /** Bytes a completed read puts into guest memory. */
  datatype Transfer = Transfer(addr: u32, bytes: seq<u8>)

  /** A word a command stores to guest memory when it is issued. */
  datatype Reply = Reply(addr: u32, word: u32)

  function Init(): Drive {
    Drive(Empty, CoverOpened, ERR_NONE, false,
          Status(false, false, false, false, false, false, false), Cover(true, false, false), false,
          0, 0, 0, 0, 0, 0, 0, false, Complete, 0, NoRead)
  }

  // ---- interrupts and mounting --------------------------------------------

  predicate Line(s: Status, c: Cover) {
    (s.de && s.deMask) || (s.tc && s.tcMask) || (s.brk && s.brkMask) || (c.changed && c.mask)
  }

  function Reline(d: Drive): Drive {
    d.(irq := Line(d.status, d.cover))
  }

  function Raise(d: Drive, i: Interrupt): Drive {
    match i
    case DeviceError => Reline(d.(status := d.status.(de := true)))
    case Complete => Reline(d.(status := d.status.(tc := true)))
    case Break => Reline(d.(status := d.status.(brk := true)))
    case CoverChange => Reline(d.(cover := d.cover.(changed := true)))
  }

  /** The cover follows the disc; an edge raises the cover interrupt. */
  function SetLid(d: Drive): Drive {
    var open := d.disc.Empty?;
    var e := d.(cover := d.cover.(open := open));
    if open != d.cover.open then Raise(e, CoverChange) else e
  }

  function Reset(d: Drive, spinUp: bool): Drive {
    d.(state := if d.disc.Empty? then CoverOpened else if spinUp then IdNotRead else DiscChange,
       error := ERR_NONE, dtk := false,
       pending := false, intr := Complete, cycles := 0, read := NoRead)
  }

  /** A missing or empty image is refused and nothing changes. */
  function SetDisc(d: Drive, image: seq<u8>): Drive {
    if image == [] then d else Reset(SetLid(d.(disc := Image(image))), false)
  }

  function Eject(d: Drive): Drive {
    Reset(SetLid(d.(disc := Empty)), false)
  }

  // ---- commands -----------------------------------------------------------

  /** Error of a read in this state, if it may not be made. */
  function Refusal(d: Drive): Option<u32> {
    if d.disc.Empty? then Some(ERR_NO_MEDIUM)
    else if d.state.DiscChange? then Some(ERR_MEDIUM_CHANGED)
    else if d.state.MotorStopped? then Some(ERR_MOTOR_STOPPED)
    else if d.state.IdNotRead? then Some(ERR_NO_DISC_ID)
    else None
  }

  datatype Outcome = Outcome(d: Drive, intr: Interrupt)

  function Refuse(d: Drive, error: u32): Outcome {
    Outcome(d.(error := error), DeviceError)
  }

  /** Validate and schedule; `time` is what the drive timing says. */
  function Prepare(d: Drive, offset: nat, wanted: nat, memory: Memory, time: nat): Outcome
    requires d.disc.Image?
  {
    var length := if wanted > d.len then d.len else wanted;
    if offset + length > |d.disc.bytes| then Refuse(d, ERR_BLOCK_OOB)
    else if length == 0 then Outcome(d, Complete)
    else
      match memory(d.mar)
      case None => Outcome(d, DeviceError)
      case Some(room) =>
        var fits := if room < length then room else length;
        Outcome(d.(read := Read(offset, fits, d.mar), cycles := time), Complete)
  }

  function TryRead(d: Drive, offset: nat, wanted: nat, memory: Memory, time: nat): Outcome {
    match Refusal(d)
    case Some(error) => Refuse(d, error)
    case None => Prepare(d, offset, wanted, memory, time)
  }

  function Opcode(cmd0: u32): nat {
    cmd0 / 0x100_0000
  }

  function Sub(cmd0: u32): nat {
    cmd0 % 0x100
  }

  /** A sector read moves the drive out of the state before the first one. */
  function SectorState(s: State): State {
    if s.ReadyNoReads? then Ready else s
  }

  function IdState(s: State): State {
    if s.IdNotRead? then ReadyNoReads else if s.ReadyNoReads? then Ready else s
  }

  function Code(s: State): nat {
    match s
    case Ready => 0
    case ReadyNoReads => 1
    case CoverOpened => 2
    case DiscChange => 3
    case NoMedium => 4
    case MotorStopped => 5
    case IdNotRead => 6
  }

  function ReadCommand(d: Drive, memory: Memory, time: nat): Outcome {
    if Sub(d.cmd0) == SUB_SECTOR then TryRead(d.(state := SectorState(d.state)), d.cmd1 * 4, d.cmd2, memory, time)
    else if Sub(d.cmd0) == SUB_DISC_ID then TryRead(d.(state := IdState(d.state)), 0, 0x20, memory, time)
    else Outcome(d, Complete)
  }

  function Stopped(s: State): State {
    if s.Ready? || s.ReadyNoReads? || s.IdNotRead? then MotorStopped else s
  }

  function AudioCommand(d: Drive): Outcome {
    if Refusal(d).Some? then Refuse(d, Refusal(d).value)
    else if !d.dtk then Refuse(d, ERR_NO_AUDIO_BUF)
    else Outcome(d, Complete)
  }

  function AudioConfig(d: Drive): Outcome {
    if Refusal(d).Some? then Refuse(d, Refusal(d).value)
    else if d.state.Ready? then Refuse(d, ERR_INVALID_PERIOD)
    else Outcome(d.(dtk := Field(d.cmd0, 0x1_0000, 2) == 1), Complete)
  }

  function Execute(d0: Drive, memory: Memory, time: nat): Outcome {
    var op := Opcode(d0.cmd0);
    var d := if op != CMD_REQUEST_ERROR then d0.(error := ERR_NONE) else d0;
    if op == CMD_INQUIRY || op == CMD_SEEK then Outcome(d, Complete)
    else if op == CMD_READ then ReadCommand(d, memory, time)
    else if op == CMD_REQUEST_ERROR then
      var code := if d.state.Ready? then 0 else Code(d.state) - 1;
      Outcome(d.(imm := (code * 0x100_0000 + d.error) % WORD, error := ERR_NONE), Complete)
    else if op == CMD_AUDIO_STREAM || op == CMD_AUDIO_STATUS then AudioCommand(d)
    else if op == CMD_STOP_MOTOR then Outcome(d.(state := Stopped(d.state)), Complete)
    else if op == CMD_AUDIO_CONFIG then AudioConfig(d)
    else Refuse(d, ERR_INVALID_COMMAND)
  }

  /** Only an inquiry answers in memory at once: who made the drive and when. */
  function Replies(d: Drive): seq<Reply> {
    if Opcode(d.cmd0) == CMD_INQUIRY then
      [Reply(d.mar, 0x0000_0002), Reply((d.mar + 4) % WORD, 0x2006_0526), Reply((d.mar + 8) % WORD, 0x4100_0000)]
    else []
  }

  /** The bits of a word stored to the status register: masks are copied, and a
      one clears the status bit beside it. */
  function WriteStatus(d: Drive, v: Status): Drive {
    var s := d.status;
    Reline(d.(status := Status(s.de && !v.de, s.tc && !v.tc, s.brk && !v.brk, v.deMask, v.tcMask, v.brkMask, v.breaking)))
  }

  /** The cover bit itself cannot be written. */
  function WriteCover(d: Drive, v: Cover): Drive {
    Reline(d.(cover := Cover(d.cover.open, d.cover.changed && !v.changed, v.mask)))
  }

  const CMDBUF0 := 0x08
  const CMDBUF1 := 0x0C
  const CMDBUF2 := 0x10
  const MAR := 0x14
  const LENGTH := 0x18
  const IMMBUF := 0x20

  function WriteRegister(d: Drive, off: nat, word: u32): Drive {
    if off == CMDBUF0 then d.(cmd0 := word)
    else if off == CMDBUF1 then d.(cmd1 := word)
    else if off == CMDBUF2 then d.(cmd2 := word)
    else if off == MAR then d.(mar := word % 0x400_0000 - word % 32)
    else if off == LENGTH then d.(len := word - word % 32)
    else if off == IMMBUF then d.(imm := word)
    else d
  }

  predicate Starts(value: u32) {
    value % 2 == 1
  }

  /** A store to the control register; its low bit starts a command. */
  function WriteControl(d: Drive, value: u32, memory: Memory, time: nat): Drive {
    var e := d.(control := value % 8);
    if !Starts(value) then e
    else
      var o := Execute(e.(read := NoRead, cycles := MIN_LATENCY), memory, time);
      o.d.(intr := o.intr, pending := true)
  }

  // ---- completion ---------------------------------------------------------

  /** What the read in progress puts into memory now. */
  function Commit(d: Drive, memory: Memory): Option<Transfer>
    requires d.read.Read? ==> d.disc.Image? && d.read.offset + d.read.length <= |d.disc.bytes|
  {
    if d.read.NoRead? || d.read.length == 0 then None
    else
      match memory(d.read.addr)
      case None => None
      case Some(room) =>
        var n := if room < d.read.length then room else d.read.length;
        Some(Transfer(d.read.addr, d.disc.bytes[d.read.offset..d.read.offset + n]))
  }

  /** A successful transfer advances the DMA registers. */
  function Retire(d: Drive): Drive {
    var e := d.(cycles := 0, pending := false);
    if d.intr.Complete? then e.(read := NoRead, mar := (d.mar + d.len) % WORD, len := 0) else e
  }

  /** The command has taken its time. */
  function Finish(d: Drive): Drive {
    var f := Retire(d);
    if Starts(d.control) then Raise(f.(control := d.control - 1), d.intr) else f
  }

  function Elapse(d: Drive, cycles: nat): Drive {
    if !d.pending then d
    else if d.cycles > cycles then d.(cycles := d.cycles - cycles)
    else Finish(d)
  }

  function Transferred(d: Drive, cycles: nat, memory: Memory): Option<Transfer>
    requires d.read.Read? ==> d.disc.Image? && d.read.offset + d.read.length <= |d.disc.bytes|
  {
    if d.pending && d.cycles <= cycles && d.intr.Complete? then Commit(d, memory) else None
  }

  // ---- runs ---------------------------------------------------------------

  datatype Event =
    | Mount(image: seq<u8>) | Unmount | SpinUp
    | Control(value: u32, memory: Memory, time: nat)
    | Register(off: nat, word: u32)
    | Acknowledge(bits: Status) | AcknowledgeCover(bits1: Cover)
    | Tick(cycles: nat, memory: Memory)

  function Do(d: Drive, e: Event): Drive {
    match e
    case Mount(image) => SetDisc(d, image)
    case Unmount => Eject(d)
    case SpinUp => Reset(d, true)
    case Control(value, memory, time) => WriteControl(d, value, memory, time)
    case Register(off, word) => WriteRegister(d, off, word)
    case Acknowledge(bits) => WriteStatus(d, bits)
    case AcknowledgeCover(bits) => WriteCover(d, bits)
    case Tick(cycles, _) => Elapse(d, cycles)
  }

  /** A command as it was issued: the three command words, where its bytes go and
      how many the DMA takes, and how much memory is there. */
  datatype Request = Request(cmd0: u32, cmd1: u32, cmd2: u32, addr: u32, amount: u32, room: Option<nat>)

  /** What happened, in terms that do not depend on the drive's state. */
  datatype Happening = Changed | SpunUp | Issued(request: Request)

  function Happenings(d: Drive, e: Event): seq<Happening> {
    match e
    case Mount(image) => if image == [] then [] else [Changed]
    case Unmount => [Changed]
    case SpinUp => [SpunUp]
    case Control(value, memory, _) =>
      if Starts(value) then [Issued(Request(d.cmd0, d.cmd1, d.cmd2, d.mar, d.len, memory(d.mar)))] else []
    case _ => []
  }

  /** A command by its high byte. */
  predicate Commands(q: Request, op: nat) {
    q.cmd0 / 0x100_0000 == op
  }

  /** A read of the disc ID, or of sectors, by its low byte. */
  predicate AsksForId(q: Request) {
    Commands(q, 0xA8) && q.cmd0 % 0x100 == 0x40
  }

  predicate AsksForSectors(q: Request) {
    Commands(q, 0xA8) && q.cmd0 % 0x100 == 0
  }

  /** Where on the disc the bytes of a read are, in bytes: sector reads name them
      in words. */
  function PlaceOf(q: Request): nat {
    if AsksForSectors(q) then 4 * q.cmd1 else 0
  }

  function Least(a: nat, b: nat): nat {
    if a < b then a else b
  }

  /** How many bytes a read asks for that its DMA takes and its memory holds. */
  function LengthOf(q: Request): nat {
    var asked := Least(if AsksForSectors(q) then q.cmd2 else 32, q.amount);
    if q.room.None? then 0 else Least(asked, q.room.value)
  }

  /** Since the last change of disc: has the drive been spun up, with no motor
      stop after that; and has the disc ID been asked for since? */
  datatype Since = Since(spun: bool, identified: bool)

  function Track(hs: seq<Happening>): Since {
    if hs == [] then Since(false, false)
    else
      var before := Track(hs[..|hs| - 1]);
      match hs[|hs| - 1]
      case Changed => Since(false, false)
      case SpunUp => Since(true, false)
      case Issued(q) =>
        if Commands(q, 0xE3) then Since(false, false)
        else if AsksForId(q) then Since(before.spun, before.spun)
        else before
  }

  lemma TrackSnoc(hs: seq<Happening>, h: Happening)
    ensures Track(hs + [h])
            == match h
               case Changed => Since(false, false)
               case SpunUp => Since(true, false)
               case Issued(q) =>
                 if Commands(q, 0xE3) then Since(false, false)
                 else if AsksForId(q) then Since(Track(hs).spun, Track(hs).spun)
                 else Track(hs)
  {
    assert (hs + [h])[..|hs|] == hs;
  }

  /** The read in progress is the last thing that happened, and does what that
      asked for. */
  ghost predicate LastWasRead(hs: seq<Happening>, r: Pending)
    requires r.Read?
  {
    && hs != [] && hs[|hs| - 1].Issued?
    && var q := hs[|hs| - 1].request;
       && (AsksForSectors(q) || AsksForId(q))
       && r.offset == PlaceOf(q) && r.length == LengthOf(q) && r.addr == q.addr
  }

  ghost predicate Inv(d: Drive, hs: seq<Happening>) {
    && (d.disc.Empty? <==> d.state.CoverOpened?) && (d.disc.Empty? <==> d.cover.open)
    && (d.disc.Image? ==> d.disc.bytes != [])
    && !d.state.NoMedium?
    && (d.state.Ready? || d.state.ReadyNoReads? ==> Track(hs).spun && Track(hs).identified)
    && (d.state.IdNotRead? ==> Track(hs).spun)
    && (d.read.Read? ==>
          && d.disc.Image? && d.read.offset + d.read.length <= |d.disc.bytes|
          && (d.state.Ready? || d.state.ReadyNoReads?) && d.pending && d.intr.Complete? && LastWasRead(hs, d.read))
  }
}
