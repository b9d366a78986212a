/** Over every run, what the drive transfers was asked for properly and lies in
    the image that is mounted. */
module DiscSafety {
  import opened Bytes
  import opened DiscDrive
  import opened Wrappers

  lemma ReadIsSafe(d: Drive, offset: nat, wanted: nat, memory: Memory, time: nat)
    ensures var o := TryRead(d, offset, wanted, memory, time);
            && o.d == d.(error := o.d.error, read := o.d.read, cycles := o.d.cycles)
            && (o.d.read.Read? && d.read.NoRead? ==>
                  && o.intr.Complete? && d.disc.Image? && (d.state.Ready? || d.state.ReadyNoReads? || d.state.NoMedium? || d.state.CoverOpened?)
                  && o.d.read.offset == offset && o.d.read.offset + o.d.read.length <= |d.disc.bytes|
                  && memory(d.mar).Some? && o.d.read.addr == d.mar
                  && o.d.read.length == Least(Least(wanted, d.len), memory(d.mar).value))
  {
  }

  /** The state a read command leaves is one the history accounts for. */
  lemma ReadStates(d: Drive, hs: seq<Happening>, q: Request)
    requires Inv(d, hs) && q.cmd0 == d.cmd0 && Opcode(d.cmd0) == CMD_READ
    ensures var s := if Sub(d.cmd0) == SUB_SECTOR then SectorState(d.state)
                     else if Sub(d.cmd0) == SUB_DISC_ID then IdState(d.state) else d.state;
            var after := Track(hs + [Issued(q)]);
            && !s.NoMedium? && (s.CoverOpened? <==> d.state.CoverOpened?)
            && (s.Ready? || s.ReadyNoReads? ==> after.spun && after.identified)
            && (s.IdNotRead? ==> after.spun)
  {
    TrackSnoc(hs, Issued(q));
  }

  /** A command that is not a read leaves disc, cover and (cleared) read alone. */
  lemma OtherCommand(d: Drive, memory: Memory, time: nat)
    requires Opcode(d.cmd0) != CMD_READ
    ensures var o := Execute(d, memory, time);
            && o.d == d.(error := o.d.error, imm := o.d.imm, dtk := o.d.dtk, state := o.d.state)
            && o.d.state == if Opcode(d.cmd0) == CMD_STOP_MOTOR then Stopped(d.state) else d.state
  {
    hide Refusal, Code, Stopped, Opcode, Field;
  }

  lemma ReadExecutes(d: Drive, memory: Memory, time: nat)
    requires Opcode(d.cmd0) == CMD_READ && d.read.NoRead?
    ensures var o := Execute(d, memory, time);
            && o.d == d.(error := o.d.error, read := o.d.read, cycles := o.d.cycles, state := o.d.state)
            && o.d.state == (if Sub(d.cmd0) == SUB_SECTOR then SectorState(d.state)
                             else if Sub(d.cmd0) == SUB_DISC_ID then IdState(d.state) else d.state)
            && (o.d.read.Read? ==>
                  && o.intr.Complete? && d.disc.Image? && o.d.read.offset + o.d.read.length <= |d.disc.bytes|
                  && (o.d.state.Ready? || o.d.state.ReadyNoReads? || o.d.state.NoMedium? || o.d.state.CoverOpened?)
                  && (Sub(d.cmd0) == SUB_SECTOR || Sub(d.cmd0) == SUB_DISC_ID)
                  && memory(d.mar).Some? && o.d.read.addr == d.mar
                  && o.d.read.offset == (if Sub(d.cmd0) == SUB_SECTOR then 4 * d.cmd1 else 0)
                  && o.d.read.length == Least(Least(if Sub(d.cmd0) == SUB_SECTOR then d.cmd2 else 32, d.len), memory(d.mar).value))
  {
    var e := d.(error := ERR_NONE);
    ReadIsSafe(e.(state := SectorState(e.state)), e.cmd1 * 4, e.cmd2, memory, time);
    ReadIsSafe(e.(state := IdState(e.state)), 0, 0x20, memory, time);
    hide TryRead, Opcode, Sub, SectorState, IdState;
  }

  lemma IssueKeepsInv(d: Drive, hs: seq<Happening>, value: u32, memory: Memory, time: nat)
    requires Inv(d, hs) && Starts(value)
    ensures Inv(WriteControl(d, value, memory, time), hs + Happenings(d, Control(value, memory, time)))
  {
    var q := Request(d.cmd0, d.cmd1, d.cmd2, d.mar, d.len, memory(d.mar));
    TrackSnoc(hs, Issued(q));
    var e := d.(control := value % 8, read := NoRead, cycles := MIN_LATENCY);
    if Opcode(d.cmd0) == CMD_READ {
      ReadStates(d, hs, q);
      ReadExecutes(e, memory, time);
      hide Track, Execute, SectorState, IdState;
    } else {
      OtherCommand(e, memory, time);
      hide Track, Execute;
    }
  }

  lemma MountKeepsInv(d: Drive, hs: seq<Happening>, image: seq<u8>)
    requires Inv(d, hs)
    ensures Inv(SetDisc(d, image), hs + Happenings(d, Mount(image)))
  {
    TrackSnoc(hs, Changed);
    assert hs + [] == hs;
  }

  lemma ResetKeepsInv(d: Drive, hs: seq<Happening>)
    requires Inv(d, hs)
    ensures Inv(Eject(d), hs + [Changed]) && Inv(Reset(d, true), hs + [SpunUp])
  {
    TrackSnoc(hs, Changed);
    TrackSnoc(hs, SpunUp);
  }

  lemma QuietKeepsInv(d: Drive, hs: seq<Happening>, e: Event)
    requires Inv(d, hs) && (e.Register? || e.Acknowledge? || e.AcknowledgeCover?)
    ensures Inv(Do(d, e), hs)
  {
    hide Track, Line;
  }

  lemma TickKeepsInv(d: Drive, hs: seq<Happening>, cycles: nat)
    requires Inv(d, hs)
    ensures Inv(Elapse(d, cycles), hs)
  {
    hide Track, Line;
  }

  lemma DoKeepsInv(d: Drive, hs: seq<Happening>, e: Event)
    requires Inv(d, hs)
    ensures Inv(Do(d, e), hs + Happenings(d, e))
  {
    hide Inv, SetDisc, Eject, Reset, WriteControl, WriteRegister, WriteStatus, WriteCover, Elapse;
    assert hs + [] == hs;
    match e
    case Mount(image) => MountKeepsInv(d, hs, image);
    case Unmount => ResetKeepsInv(d, hs);
    case SpinUp => ResetKeepsInv(d, hs);
    case Control(value, memory, time) =>
      if Starts(value) {
        IssueKeepsInv(d, hs, value, memory, time);
      } else {
        NoStart(d, hs, value, memory, time);
      }
    case Register(_, _) => QuietKeepsInv(d, hs, e);
    case Acknowledge(_) => QuietKeepsInv(d, hs, e);
    case AcknowledgeCover(_) => QuietKeepsInv(d, hs, e);
    case Tick(cycles, _) => TickKeepsInv(d, hs, cycles);
  }

  lemma NoStart(d: Drive, hs: seq<Happening>, value: u32, memory: Memory, time: nat)
    requires Inv(d, hs) && !Starts(value)
    ensures Inv(WriteControl(d, value, memory, time), hs)
  {
    hide Track;
  }

  // ---- whole runs ---------------------------------------------------------

  function After(d: Drive, es: seq<Event>): Drive {
    if es == [] then d else Do(After(d, es[..|es| - 1]), es[|es| - 1])
  }

  function History(d: Drive, es: seq<Event>): seq<Happening> {
    if es == [] then []
    else History(d, es[..|es| - 1]) + Happenings(After(d, es[..|es| - 1]), es[|es| - 1])
  }

  lemma {:induction false} RunInv(es: seq<Event>)
    ensures Inv(After(Init(), es), History(Init(), es))
  {
    hide Inv, Do, Happenings;
    if es == [] {
      InitInv();
    } else {
      RunInv(es[..|es| - 1]);
      DoKeepsInv(After(Init(), es[..|es| - 1]), History(Init(), es[..|es| - 1]), es[|es| - 1]);
    }
  }

  lemma InitInv()
    ensures Inv(Init(), [])
  {
  }

  /** NO DISC.  After any run, no disc is in the drive exactly when it reports an
      open cover, and exactly when the cover bit is set. */
  lemma CoverTellsDisc(es: seq<Event>)
    ensures var d := After(Init(), es);
            && (d.disc.Empty? <==> d.state.CoverOpened?)
            && (d.disc.Empty? <==> d.cover.open)
            && !d.state.NoMedium?
  {
    RunInv(es);
    hide After, History, Track;
  }

  /** SAFETY AND DELIVERY.  The bytes a tick puts into memory belong to the latest
      thing that happened: a read issued after the drive was spun up and the disc
      ID asked for, both since the last change of disc and with no motor stop in
      between.  They are the bytes of the image mounted at that moment from where
      the read names, four times its second word for sectors and 0 for the ID; they
      go to the DMA address of that command; and they are exactly as many as the
      least of what it asked for, what its DMA takes and what memory holds, then
      and now. */
  lemma TransfersAreSafe(es: seq<Event>, cycles: nat, memory: Memory)
    ensures var d, hs := After(Init(), es), History(Init(), es);
            && (d.read.Read? ==> d.disc.Image? && d.read.offset + d.read.length <= |d.disc.bytes|)
            && (Transferred(d, cycles, memory).Some? ==>
                  var t := Transferred(d, cycles, memory).value;
                  && Track(hs).spun && Track(hs).identified
                  && hs != [] && hs[|hs| - 1].Issued?
                  && var q := hs[|hs| - 1].request;
                     var sectors := q.cmd0 % 0x100 == 0;
                     var place, asked := if sectors then 4 * q.cmd1 else 0, if sectors then q.cmd2 else 32;
                     && q.cmd0 / 0x100_0000 == 0xA8 && (sectors || q.cmd0 % 0x100 == 0x40)
                     && q.room.Some? && t.addr == q.addr && memory(q.addr).Some?
                     && |t.bytes| == Least(Least(Least(asked, q.amount), q.room.value), memory(q.addr).value)
                     && place + |t.bytes| <= |d.disc.bytes| && t.bytes == d.disc.bytes[place..place + |t.bytes|])
  {
    RunInv(es);
    hide After, History, Track;
  }

  /** A read that cannot be made answers with the drive's own reason, transfers
      nothing and leaves the disc alone; which reason, for every state. */
  lemma RefusalReasons(d: Drive, hs: seq<Happening>)
    requires Inv(d, hs)
    ensures Refusal(d) == match d.state
                          case CoverOpened => Some(ERR_NO_MEDIUM)
                          case DiscChange => Some(ERR_MEDIUM_CHANGED)
                          case MotorStopped => Some(ERR_MOTOR_STOPPED)
                          case IdNotRead => Some(ERR_NO_DISC_ID)
                          case _ => None
  {
    hide Track;
  }

  predicate Lined(d: Drive) {
    d.irq == Line(d.status, d.cover)
  }

  lemma RaiseLines(d: Drive, i: Interrupt)
    ensures Lined(Raise(d, i))
  {
    hide Line;
  }

  lemma LidLines(d: Drive)
    requires Lined(d)
    ensures Lined(SetLid(d)) && Lined(Reset(SetLid(d), false))
  {
    RaiseLines(d.(cover := d.cover.(open := d.disc.Empty?)), CoverChange);
    hide Raise;
  }

  lemma RetireKeeps(d: Drive)
    ensures var e := Retire(d); e.irq == d.irq && e.status == d.status && e.cover == d.cover
  {
  }

  lemma FinishLines(d: Drive)
    requires Lined(d)
    ensures Lined(Finish(d))
  {
    RetireKeeps(d);
    hide Retire, Raise, Line;
    if Starts(d.control) {
      RaiseLines(Retire(d).(control := d.control - 1), d.intr);
    }
  }

  lemma ElapseLines(d: Drive, cycles: nat)
    requires Lined(d)
    ensures Lined(Elapse(d, cycles))
  {
    FinishLines(d);
    hide Finish, Line;
  }

  lemma ControlLines(d: Drive, value: u32, memory: Memory, time: nat)
    requires Lined(d)
    ensures Lined(WriteControl(d, value, memory, time))
  {
    ExecuteKeepsLine(d.(control := value % 8, read := NoRead, cycles := MIN_LATENCY), memory, time);
    hide Execute, Line;
  }

  lemma StoreLines(d: Drive, e: Event)
    requires Lined(d) && (e.Register? || e.Acknowledge? || e.AcknowledgeCover?)
    ensures Lined(Do(d, e))
  {
    hide Line;
  }

  lemma DoKeepsLine(d: Drive, e: Event)
    requires Lined(d)
    ensures Lined(Do(d, e))
  {
    hide Lined, Reset, SetLid, WriteControl, WriteRegister, WriteStatus, WriteCover, Elapse;
    match e
    case Mount(image) => MountLines(d, image);
    case Unmount => MountLines(d, []);
    case SpinUp => ResetLines(d, true);
    case Control(value, memory, time) => ControlLines(d, value, memory, time);
    case Register(_, _) => StoreLines(d, e);
    case Acknowledge(_) => StoreLines(d, e);
    case AcknowledgeCover(_) => StoreLines(d, e);
    case Tick(cycles, _) => ElapseLines(d, cycles);
  }

  lemma ResetLines(d: Drive, spinUp: bool)
    requires Lined(d)
    ensures Lined(Reset(d, spinUp))
  {
  }

  lemma MountLines(d: Drive, image: seq<u8>)
    requires Lined(d)
    ensures Lined(SetDisc(d, image)) && Lined(Eject(d))
  {
    LidLines(d.(disc := Image(image)));
    LidLines(d.(disc := Empty));
    hide SetLid, Reset;
  }

  lemma ExecuteKeepsLine(d: Drive, memory: Memory, time: nat)
    ensures var e := Execute(d, memory, time).d; e.irq == d.irq && e.status == d.status && e.cover == d.cover
  {
    if Opcode(d.cmd0) != CMD_READ {
      OtherCommand(d, memory, time);
    } else {
      var e := d.(error := ERR_NONE);
      ReadIsSafe(e.(state := SectorState(e.state)), e.cmd1 * 4, e.cmd2, memory, time);
      ReadIsSafe(e.(state := IdState(e.state)), 0, 0x20, memory, time);
      hide TryRead, Opcode, Sub;
    }
  }

  /** After any run the interrupt line is what the four status and mask pairs
      make it: no path forgets to drive it. */
  lemma {:induction false} LineIsLive(es: seq<Event>)
    ensures var d := After(Init(), es); d.irq == Line(d.status, d.cover)
  {
    hide Do;
    if es != [] {
      LineIsLive(es[..|es| - 1]);
      DoKeepsLine(After(Init(), es[..|es| - 1]), es[|es| - 1]);
    }
  }
}
