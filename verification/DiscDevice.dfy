/** The drive as the object the runtime keeps: registers and drive state updated
    in place, proved against the drive's functions. */
module DiscDevice {
  import opened Bytes
  import opened DiscDrive
  import opened DiscReadAhead
  import opened Wrappers

  class DriveRegisters {
    var disc: Disc
    var state: State
    var error: u32
    var dtk: bool
    var status: Status
    var cover: Cover
    var irq: bool
    var cmd0: u32
    var cmd1: u32
    var cmd2: u32
    var mar: u32
    var len: u32
    var control: u32
    var imm: u32
    var pending: bool
    var intr: Interrupt
    var cycles: nat
    var read: Pending
    const scheduler: Scheduler

    function View(): Drive
      reads this
    {
      Drive(disc, state, error, dtk, status, cover, irq, cmd0, cmd1, cmd2, mar, len, control, imm, pending, intr, cycles, read)
    }

    constructor (scheduler: Scheduler)
      ensures View() == Init() && this.scheduler == scheduler
    {
      this.scheduler := scheduler;
      disc, state, error, dtk := Empty, CoverOpened, ERR_NONE, false;
      status := Status(false, false, false, false, false, false, false);
      cover, irq := Cover(true, false, false), false;
      cmd0, cmd1, cmd2, mar, len, control, imm := 0, 0, 0, 0, 0, 0, 0;
      pending, intr, cycles, read := false, Complete, 0, NoRead;
    }

    method UpdateInterrupts()
      modifies `irq
      ensures View() == Reline(old(View()))
    {
      irq := (status.de && status.deMask) || (status.tc && status.tcMask)
             || (status.brk && status.brkMask) || (cover.changed && cover.mask);
    }

    method GenerateInterrupt(i: Interrupt)
      modifies `status, `cover, `irq
      ensures View() == Raise(old(View()), i)
    {
      hide Line;
      match i {
        case DeviceError => status := status.(de := true);
        case Complete => status := status.(tc := true);
        case Break => status := status.(brk := true);
        case CoverChange => cover := cover.(changed := true);
      }
      UpdateInterrupts();
    }

    method SetLidOpen()
      modifies `status, `cover, `irq
      ensures View() == SetLid(old(View()))
    {
      hide Raise;
      var was, want := cover.open, disc.Empty?;
      cover := cover.(open := want);
      if want != was {
        GenerateInterrupt(CoverChange);
      }
    }

    /** Drop the command in progress. */
    method DropCommand()
      modifies `pending, `intr, `cycles, `read
      ensures View() == old(View()).(pending := false, intr := Complete, cycles := 0, read := NoRead)
    {
      pending, intr, cycles, read := false, Complete, 0, NoRead;
    }

    method ResetDrive(spinUp: bool)
      modifies `state, `error, `dtk, `pending, `intr, `cycles, `read, scheduler`window
      ensures View() == Reset(old(View()), spinUp) && !Active(scheduler.window) && Sound(scheduler.window)
    {
      hide Sound, Active;
      scheduler.Forget();
      state := if disc.Empty? then CoverOpened else if !spinUp then DiscChange else IdNotRead;
      error, dtk := ERR_NONE, false;
      DropCommand();
    }

    /** Mount an image; one that cannot be opened or is empty is refused. */
    method MountDisc(image: seq<u8>) returns (mounted: bool)
      modifies `disc, `status, `cover, `irq, `state, `error, `dtk, `pending, `intr, `cycles, `read, scheduler`window
      ensures mounted == (image != []) && View() == SetDisc(old(View()), image)
    {
      hide SetLid, Reset;
      if image == [] {
        return false;
      }
      disc := Image(image);
      SetLidOpen();
      ResetDrive(false);
      return true;
    }

    method EjectDisc()
      modifies `disc, `status, `cover, `irq, `state, `error, `dtk, `pending, `intr, `cycles, `read, scheduler`window
      ensures View() == Eject(old(View()))
    {
      hide SetLid, Reset;
      disc := Empty;
      SetLidOpen();
      ResetDrive(false);
    }

    method CheckReadPreconditions() returns (ok: bool)
      modifies `error
      ensures ok == Refusal(old(View())).None?
      ensures View() == if ok then old(View()) else old(View()).(error := Refusal(old(View())).value)
    {
      if disc.Empty? {
        error := ERR_NO_MEDIUM;
        return false;
      }
      if state == DiscChange {
        error := ERR_MEDIUM_CHANGED;
        return false;
      }
      if state == MotorStopped {
        error := ERR_MOTOR_STOPPED;
        return false;
      }
      if state == IdNotRead {
        error := ERR_NO_DISC_ID;
        return false;
      }
      return true;
    }

    /** Some duration makes the result the drive's: the scheduler's. */
    method PrepareRead(offset: nat, wanted: nat, memory: Memory) returns (i: Interrupt, ghost time: nat)
      requires disc.Image? && Sound(scheduler.window)
      modifies `error, `read, `cycles, scheduler`window
      ensures Outcome(View(), i) == Prepare(old(View()), offset, wanted, memory, time)
      ensures Sound(scheduler.window) && time > 0
    {
      time := 1;
      var length := if wanted > len then len else wanted;
      if offset + length > |disc.bytes| {
        error := ERR_BLOCK_OOB;
        return DeviceError, time;
      }
      if length == 0 {
        return Complete, time;
      }
      var room := memory(mar);
      if room.None? {
        return DeviceError, time;
      }
      if room.value < length {
        length := room.value;
      }
      read := Read(offset, length, mar);
      var ticks := scheduler.Schedule(offset, length);
      cycles := ticks;
      return Complete, ticks;
    }

    method TryToRead(offset: nat, wanted: nat, memory: Memory) returns (i: Interrupt, ghost time: nat)
      requires Sound(scheduler.window)
      modifies `error, `read, `cycles, scheduler`window
      ensures Outcome(View(), i) == TryRead(old(View()), offset, wanted, memory, time)
      ensures Sound(scheduler.window)
    {
      hide Prepare;
      time := 1;
      var ok := CheckReadPreconditions();
      if !ok {
        return DeviceError, time;
      }
      i, time := PrepareRead(offset, wanted, memory);
    }

    method ReadDisc(memory: Memory) returns (i: Interrupt, ghost time: nat)
      requires Sound(scheduler.window)
      modifies `state, `error, `read, `cycles, scheduler`window
      ensures Outcome(View(), i) == ReadCommand(old(View()), memory, time)
      ensures Sound(scheduler.window)
    {
      hide TryRead;
      i, time := Complete, 1;
      if Sub(cmd0) == SUB_SECTOR {
        if state == ReadyNoReads {
          state := Ready;
        }
        i, time := TryToRead(cmd1 * 4, cmd2, memory);
      } else if Sub(cmd0) == SUB_DISC_ID {
        if state == IdNotRead {
          state := ReadyNoReads;
        } else if state == ReadyNoReads {
          state := Ready;
        }
        i, time := TryToRead(0, 0x20, memory);
      }
    }

    method PlayAudio() returns (i: Interrupt)
      modifies `error
      ensures Outcome(View(), i) == AudioCommand(old(View()))
    {
      i := Complete;
      var ok := CheckReadPreconditions();
      if !ok {
        i := DeviceError;
      } else if !dtk {
        error := ERR_NO_AUDIO_BUF;
        i := DeviceError;
      }
    }

    method ConfigureAudio() returns (i: Interrupt)
      modifies `error, `dtk
      ensures Outcome(View(), i) == AudioConfig(old(View()))
    {
      i := Complete;
      var ok := CheckReadPreconditions();
      if !ok {
        i := DeviceError;
      } else if state == Ready {
        error := ERR_INVALID_PERIOD;
        i := DeviceError;
      } else {
        dtk := Field(cmd0, 0x1_0000, 2) == 1;
      }
    }

    method ExecuteCommand(memory: Memory) returns (i: Interrupt, replies: seq<Reply>, ghost time: nat)
      requires Sound(scheduler.window)
      modifies `state, `error, `dtk, `imm, `read, `cycles, scheduler`window
      ensures Outcome(View(), i) == Execute(old(View()), memory, time) && replies == Replies(old(View()))
      ensures Sound(scheduler.window)
    {
      hide ReadCommand, AudioCommand, AudioConfig, Field, Sound;
      i, replies, time := Complete, [], 1;
      var op := Opcode(cmd0);
      if op != CMD_REQUEST_ERROR {
        error := ERR_NONE;
      }
      if op == CMD_INQUIRY {
        replies := [Reply(mar, 0x0000_0002), Reply((mar + 4) % WORD, 0x2006_0526), Reply((mar + 8) % WORD, 0x4100_0000)];
      } else if op == CMD_SEEK {
      } else if op == CMD_READ {
        i, time := ReadDisc(memory);
      } else if op == CMD_REQUEST_ERROR {
        var code := if state == Ready then 0 else Code(state) - 1;
        imm := (code * 0x100_0000 + error) % WORD;
        error := ERR_NONE;
      } else if op == CMD_AUDIO_STREAM || op == CMD_AUDIO_STATUS {
        i := PlayAudio();
      } else if op == CMD_STOP_MOTOR {
        if state == Ready || state == ReadyNoReads || state == IdNotRead {
          state := MotorStopped;
        }
      } else if op == CMD_AUDIO_CONFIG {
        i := ConfigureAudio();
      } else {
        error := ERR_INVALID_COMMAND;
        i := DeviceError;
      }
    }

    /** A store to the control register. */
    method WriteCr(value: u32, memory: Memory) returns (replies: seq<Reply>, ghost time: nat)
      requires Sound(scheduler.window)
      modifies `control, `pending, `intr, `state, `error, `dtk, `imm, `read, `cycles, scheduler`window
      ensures View() == WriteControl(old(View()), value, memory, time)
      ensures replies == if value % 2 == 1 then Replies(old(View())) else []
      ensures Sound(scheduler.window)
    {
      hide Execute;
      replies, time := [], 1;
      LowBitKept(value);
      control := value % 8;
      if control % 2 == 1 {
        replies, time := StartCommand(memory);
      }
    }

    method StartCommand(memory: Memory) returns (replies: seq<Reply>, ghost time: nat)
      requires Sound(scheduler.window)
      modifies `pending, `intr, `state, `error, `dtk, `imm, `read, `cycles, scheduler`window
      ensures var o := Execute(old(View()).(read := NoRead, cycles := MIN_LATENCY), memory, time);
              View() == o.d.(intr := o.intr, pending := true) && replies == Replies(old(View()))
      ensures Sound(scheduler.window)
    {
      hide Execute, Replies, Sound, Opcode;
      read, cycles := NoRead, MIN_LATENCY;
      assert View() == old(View()).(read := NoRead, cycles := MIN_LATENCY);
      var i;
      i, replies, time := ExecuteCommand(memory);
      ghost var d := View();
      intr, pending := i, true;
      assert View() == d.(intr := i, pending := true);
      RepliesIgnore(old(View()), NoRead, MIN_LATENCY);
    }

    method RetireCommand()
      modifies `cycles, `pending, `read, `mar, `len
      ensures View() == Retire(old(View()))
    {
      cycles, pending := 0, false;
      assert View() == old(View()).(cycles := 0, pending := false);
      if intr == Complete {
        read := NoRead;
        mar := (mar + len) % WORD;
        len := 0;
      }
    }

    /** The command has taken its time; a read hands over its bytes. */
    method CompleteCommand(memory: Memory) returns (t: Option<Transfer>)
      requires read.Read? ==> disc.Image? && read.offset + read.length <= |disc.bytes|
      modifies `cycles, `pending, `read, `mar, `len, `control, `status, `cover, `irq
      ensures View() == Finish(old(View()))
      ensures t == if old(intr).Complete? then old(Commit(View(), memory)) else None
    {
      hide Raise;
      t := None;
      if intr == Complete {
        t := Commit(View(), memory);
      }
      hide Commit, Retire;
      RetireCommand();
      if control % 2 == 1 {
        control := control - 1;
        GenerateInterrupt(intr);
      }
    }

    /** Time passes. */
    method Tick(elapsed: nat, memory: Memory) returns (t: Option<Transfer>)
      requires read.Read? ==> disc.Image? && read.offset + read.length <= |disc.bytes|
      modifies `cycles, `pending, `read, `mar, `len, `control, `status, `cover, `irq, scheduler`now
      ensures View() == Elapse(old(View()), elapsed)
      ensures t == old(Transferred(View(), elapsed, memory))
    {
      hide Finish, Commit;
      t := None;
      scheduler.now := scheduler.now + elapsed;
      if !pending {
        return;
      }
      if cycles > elapsed {
        cycles := cycles - elapsed;
        return;
      }
      t := CompleteCommand(memory);
    }
  }

  lemma RepliesIgnore(d: Drive, read: Pending, cycles: nat)
    ensures Replies(d.(read := read, cycles := cycles)) == Replies(d)
  {
    hide Opcode;
  }

  lemma LowBitKept(value: u32)
    ensures value % 8 % 2 == value % 2
  {
  }
}
