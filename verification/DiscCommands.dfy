/** What each drive command does, as the hardware's documentation puts it, and
    that what is executed is what the guest stored. */
module DiscCommands {
  import opened Bytes
  import opened DiscDrive
  import opened DiscSafety
  import opened Wrappers

  // ---- the command words --------------------------------------------------

  /** The word last stored to a register, 0 if none was. */
  function LastStored(es: seq<Event>, off: nat): u32 {
    if es == [] then 0
    else if es[|es| - 1].Register? && es[|es| - 1].off == off then es[|es| - 1].word
    else LastStored(es[..|es| - 1], off)
  }

  lemma ExecuteKeepsWords(d: Drive, memory: Memory, time: nat)
    ensures var e := Execute(d, memory, time).d;
            e.cmd0 == d.cmd0 && e.cmd1 == d.cmd1 && e.cmd2 == d.cmd2 && e.disc == d.disc
  {
    if Opcode(d.cmd0) != CMD_READ {
      OtherCommand(d, memory, time);
    } else {
      var e := d.(error := ERR_NONE);
      ReadIsSafe(e.(state := SectorState(e.state)), e.cmd1 * 4, e.cmd2, memory, time);
      ReadIsSafe(e.(state := IdState(e.state)), 0, 0x20, memory, time);
      hide TryRead, Opcode, Sub;
    }
  }

  lemma DoKeepsWords(d: Drive, e: Event)
    ensures var f := Do(d, e);
            if e.Register? then
              && f.cmd0 == (if e.off == 0x08 then e.word else d.cmd0) && f.cmd1 == (if e.off == 0x0C then e.word else d.cmd1)
              && f.cmd2 == (if e.off == 0x10 then e.word else d.cmd2)
            else f.cmd0 == d.cmd0 && f.cmd1 == d.cmd1 && f.cmd2 == d.cmd2
  {
    hide Execute, Line;
    if e.Control? {
      ExecuteKeepsWords(d.(control := e.value % 8, read := NoRead, cycles := MIN_LATENCY), e.memory, e.time);
    }
  }

  /** The words of the next command are those last stored. */
  lemma {:induction false} CommandIsAsStored(es: seq<Event>)
    ensures var d := After(Init(), es);
            d.cmd0 == LastStored(es, 0x08) && d.cmd1 == LastStored(es, 0x0C) && d.cmd2 == LastStored(es, 0x10)
  {
    hide Do;
    if es != [] {
      CommandIsAsStored(es[..|es| - 1]);
      DoKeepsWords(After(Init(), es[..|es| - 1]), es[|es| - 1]);
    }
  }

  // ---- what commands do ---------------------------------------------------

  /** The error with which a drive in this state answers a read, 0 if it reads. */
  function StateError(d: Drive, s: State): nat {
    if d.disc.Empty? then 0x23A00
    else if s.DiscChange? then 0x62800
    else if s.MotorStopped? then 0x20400
    else if s.IdNotRead? then 0x20401
    else 0
  }

  /** The state in which a read finds the drive: asking for the ID readies it. */
  function StateFor(s: State, id: bool): State {
    if s.ReadyNoReads? then Ready else if id && s.IdNotRead? then ReadyNoReads else s
  }

  /** What a read command leaves: the state, the error, the read under way, and
      whether it will complete. */
  datatype Reaction = Reaction(state: State, error: u32, read: Pending, completes: bool)

  function ReactionTo(d: Drive, memory: Memory): Reaction
    requires d.cmd0 % 0x100 == 0 || d.cmd0 % 0x100 == 0x40
  {
    var id := d.cmd0 % 0x100 == 0x40;
    var state := StateFor(d.state, id);
    var place, asked := if id then 0 else 4 * d.cmd1, if id then 32 else d.cmd2;
    var wanted := Least(asked, d.len);
    if StateError(d, state) != 0 then Reaction(state, StateError(d, state), NoRead, false)
    else if d.disc.Image? && place + wanted > |d.disc.bytes| then Reaction(state, 0x52100, NoRead, false)
    else if wanted == 0 then Reaction(state, 0, NoRead, true)
    else
      match memory(d.mar)
      case None => Reaction(state, 0, NoRead, false)
      case Some(room) => Reaction(state, 0, Read(place, Least(wanted, room), d.mar), true)
  }

  lemma RefusalIs(d: Drive)
    ensures Refusal(d) == if StateError(d, d.state) != 0 then Some(StateError(d, d.state)) else None
  {
  }

  lemma AttemptIs(d: Drive, place: nat, asked: nat, memory: Memory, time: nat)
    requires d.read.NoRead? && d.error == 0
    ensures var o, wanted := TryRead(d, place, asked, memory, time), Least(asked, d.len);
            && o.d == d.(error := o.d.error, read := o.d.read, cycles := if o.d.read.Read? then time else d.cycles)
            && Reaction(d.state, o.d.error, o.d.read, o.intr.Complete?)
               == (if StateError(d, d.state) != 0 then Reaction(d.state, StateError(d, d.state), NoRead, false)
                   else if d.disc.Image? && place + wanted > |d.disc.bytes| then Reaction(d.state, 0x52100, NoRead, false)
                   else if wanted == 0 then Reaction(d.state, 0, NoRead, true)
                   else match memory(d.mar)
                        case None => Reaction(d.state, 0, NoRead, false)
                        case Some(room) => Reaction(d.state, 0, Read(place, Least(wanted, room), d.mar), true))
            && (o.intr.Complete? || o.intr.DeviceError?)
  {
    RefusalIs(d);
    hide Refusal;
  }

  lemma ReadRuns(d: Drive, memory: Memory, time: nat)
    requires d.cmd0 / 0x100_0000 == 0xA8 && (d.cmd0 % 0x100 == 0 || d.cmd0 % 0x100 == 0x40) && d.read.NoRead?
    ensures var id := d.cmd0 % 0x100 == 0x40;
            var e := d.(state := StateFor(d.state, id), error := 0);
            Execute(d, memory, time) == TryRead(e, if id then 0 else 4 * d.cmd1, if id then 32 else d.cmd2, memory, time)
  {
    hide TryRead;
  }

  /** READS.  A read command started in any state, with everything it looks at. */
  lemma ReadIssued(d: Drive, value: u32, memory: Memory, time: nat)
    requires value % 2 == 1 && d.cmd0 / 0x100_0000 == 0xA8 && (d.cmd0 % 0x100 == 0 || d.cmd0 % 0x100 == 0x40)
    ensures var e, r := WriteControl(d, value, memory, time), ReactionTo(d, memory);
            && e.state == r.state && e.error == r.error && e.read == r.read
            && e.intr == (if r.completes then Complete else DeviceError) && e.pending && e.disc == d.disc
            && e.cycles == if r.read.Read? then time else 300 * 486
  {
    var f := d.(control := value % 8, read := NoRead, cycles := MIN_LATENCY);
    var id := d.cmd0 % 0x100 == 0x40;
    ReadRuns(f, memory, time);
    AttemptIs(f.(state := StateFor(d.state, id), error := 0), if id then 0 else 4 * d.cmd1, if id then 32 else d.cmd2, memory, time);
    hide TryRead, Execute, StateFor, Least;
  }

  /** THE OTHER COMMANDS.  Inquiry and seek complete; stopping the motor works from
      three states; the buffer for streamed audio can be set up only before the
      first read, and without it streaming is refused; a request for the error
      returns state and code and clears the code; anything unknown is an error. */
  lemma OthersIssued(d: Drive, value: u32, memory: Memory, time: nat)
    requires value % 2 == 1 && d.cmd0 / 0x100_0000 != 0xA8
    ensures var e, op, error := WriteControl(d, value, memory, time), d.cmd0 / 0x100_0000, StateError(d, d.state);
            && e.pending && e.read.NoRead? && e.cycles == 300 * 486 && e.disc == d.disc
            && (op == 0x12 || op == 0xAB ==> e.intr.Complete? && e.error == 0 && e.state == d.state && e.dtk == d.dtk)
            && (op == 0xE3 ==>
                  && e.intr.Complete? && e.error == 0 && e.dtk == d.dtk
                  && e.state == if d.state.Ready? || d.state.ReadyNoReads? || d.state.IdNotRead? then MotorStopped else d.state)
            && (op == 0xE0 ==> e.intr.Complete? && e.error == 0 && e.state == d.state && e.dtk == d.dtk)
            && (op == 0xE1 || op == 0xE2 ==>
                  && e.state == d.state && e.dtk == d.dtk && (e.intr.Complete? <==> error == 0 && d.dtk)
                  && e.error == (if error != 0 then error else if d.dtk then 0 else 0x52001)
                  && (e.intr.Complete? || e.intr.DeviceError?))
            && (op == 0xE4 ==>
                  && e.state == d.state && (e.intr.Complete? <==> error == 0 && !d.state.Ready?)
                  && e.error == (if error != 0 then error else if d.state.Ready? then 0x52402 else 0)
                  && e.dtk == (if e.intr.Complete? then d.cmd0 / 0x1_0000 % 2 == 1 else d.dtk)
                  && (e.intr.Complete? || e.intr.DeviceError?))
            && (op !in {0x12, 0xAB, 0xE0, 0xE1, 0xE2, 0xE3, 0xE4} ==>
                  e.intr.DeviceError? && e.error == 0x52000 && e.state == d.state && e.dtk == d.dtk)
  {
    RefusalIs(d.(control := value % 8, read := NoRead, cycles := MIN_LATENCY, error := 0));
    hide Refusal, Code;
  }

  /** The word a request for the error returns: the code last set, and above it
      the state's number less one, ready being 0. */
  lemma ErrorIsReported(d: Drive, value: u32, memory: Memory, time: nat)
    requires value % 2 == 1 && d.cmd0 / 0x100_0000 == 0xE0 && d.error < 0x100_0000
    ensures var e := WriteControl(d, value, memory, time);
            && e.imm % 0x100_0000 == d.error
            && e.imm / 0x100_0000 == match d.state
                                     case Ready => 0
                                     case ReadyNoReads => 0
                                     case CoverOpened => 1
                                     case DiscChange => 2
                                     case NoMedium => 3
                                     case MotorStopped => 4
                                     case IdNotRead => 5
  {
  }

  // ---- completion ---------------------------------------------------------

  /** COMPLETION.  When a command's time is over it is no longer pending; one that
      completed has moved the DMA on by its length, and with the start bit still
      set, exactly the status bit of its outcome is raised. */
  lemma CommandCompletes(d: Drive, cycles: nat)
    requires d.pending && d.cycles <= cycles && (d.intr.Complete? || d.intr.DeviceError?)
    ensures var e := Elapse(d, cycles);
            && !e.pending && e.disc == d.disc && e.state == d.state && e.error == d.error && e.cover == d.cover
            && e.mar == (if d.intr.Complete? then (d.mar + d.len) % WORD else d.mar)
            && e.len == (if d.intr.Complete? then 0 else d.len)
            && e.control == d.control - d.control % 2
            && e.status == (if d.control % 2 == 0 then d.status
                            else if d.intr.Complete? then d.status.(tc := true) else d.status.(de := true))
            && (d.control % 2 == 1 ==>
                  e.irq == ((e.status.de && e.status.deMask) || (e.status.tc && e.status.tcMask) || (e.status.brk && e.status.brkMask)
                            || (e.cover.changed && e.cover.mask)))
  {
  }

  /** Until then only its time runs. */
  lemma CommandWaits(d: Drive, cycles: nat)
    requires d.pending && cycles < d.cycles
    ensures Elapse(d, cycles) == d.(cycles := d.cycles - cycles)
  {
  }

  /** ACKNOWLEDGEMENT.  A one stored beside a status bit clears it, masks are taken
      over, and the line follows. */
  lemma Acknowledged(d: Drive, v: Status, c: Cover)
    ensures var e := WriteStatus(d, v);
            && (e.status.de <==> d.status.de && !v.de) && (e.status.tc <==> d.status.tc && !v.tc)
            && (e.status.brk <==> d.status.brk && !v.brk)
            && e.status.deMask == v.deMask && e.status.tcMask == v.tcMask && e.status.brkMask == v.brkMask
            && (v.de && v.tc && v.brk && !d.cover.changed ==> !e.irq)
    ensures var e := WriteCover(d, c);
            && e.cover.open == d.cover.open && (e.cover.changed <==> d.cover.changed && !c.changed) && e.cover.mask == c.mask
            && (c.changed && !d.status.de && !d.status.tc && !d.status.brk ==> !e.irq)
  {
  }

  /** REGISTERS.  DMA address and length are multiples of 32, the address within
      64 MiB. */
  lemma DmaRegisters(d: Drive, word: u32)
    ensures WriteRegister(d, 0x14, word).mar == 32 * (word / 32 % 0x20_0000)
    ensures WriteRegister(d, 0x18, word).len == 32 * (word / 32)
  {
  }

  /** An inquiry stores three words at the DMA address, any other command none. */
  lemma InquiryAnswers(d: Drive)
    ensures var rs := Replies(d);
            if d.cmd0 / 0x100_0000 == 0x12 then
              && |rs| == 3 && rs[0] == Reply(d.mar, 2) && rs[1] == Reply((d.mar + 4) % WORD, 0x2006_0526)
              && rs[2] == Reply((d.mar + 8) % WORD, 0x4100_0000)
            else rs == []
  {
  }

  /** DISC CHANGES.  A disc put in closes the cover and waits to be spun up; taken
      out it leaves the cover open; an edge of the cover raises its interrupt; a
      spin-up makes the drive ask for the disc ID.  None leaves a command or an
      error behind. */
  lemma DiscChanges(d: Drive, image: seq<u8>)
    requires image != []
    ensures var e := SetDisc(d, image);
            && e.disc == Image(image) && e.state.DiscChange? && !e.cover.open
            && (e.cover.changed <==> d.cover.changed || d.cover.open) && Quiet(e)
    ensures var e := Eject(d);
            && e.disc.Empty? && e.state.CoverOpened? && e.cover.open
            && (e.cover.changed <==> d.cover.changed || !d.cover.open) && Quiet(e)
    ensures var e := Reset(d, true);
            e.disc == d.disc && e.state == (if d.disc.Empty? then CoverOpened else IdNotRead) && e.cover == d.cover && Quiet(e)
  {
    hide Line;
  }

  predicate Quiet(d: Drive) {
    !d.pending && d.read.NoRead? && d.error == 0 && !d.dtk
  }
}
