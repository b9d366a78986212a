/** The clocks as the objects the runtime keeps. */
module ClockDevices {
  import opened Bytes
  import opened Clocks

  class BlockClock {
    var prev: u64
    var timebase: u64
    var tbRest: u64
    var dspRest: u64
    var device: u64

    function View(): Clock
      reads this
    {
      Clock(prev, timebase, tbRest, dspRest, device)
    }

    /** gcn_dispatch_charge: one block has been executed. */
    method ChargeOne(now: u64, dspPerBlock: u32, uniform: bool) returns (derived: bool, tb: u32, dsp: u32, ai: u32)
      modifies this
      ensures Charge(View(), derived, tb, dsp, ai) == ChargeBlock(old(View()), now, dspPerBlock, uniform)
    {
      hide Divide, Scaled;
      var delta := (now - prev) % DWORD;
      prev := now;
      if delta == 0 || uniform {
        timebase := (timebase + TICKS_PER_BLOCK) % DWORD;
        device := (device + CYCLES_PER_BLOCK) % DWORD;
        return false, TICKS_PER_BLOCK, dspPerBlock, 0;
      }
      var t := Divide(delta + tbRest);
      tbRest := t.rest;
      timebase := (timebase + t.whole) % DWORD;
      device := (device + delta) % DWORD;
      var d := Divide(Scaled(delta, dspPerBlock) + dspRest);
      dspRest := d.rest;
      return true, t.whole % WORD, d.whole % WORD, delta % WORD;
    }
  }

  class Decrementer {
    var value: u32
    var pending: bool

    function View(): Dec
      reads this
    {
      Dec(value, pending)
    }

    constructor ()
      ensures View() == Dec(0xFFFF_FFFF, false)
    {
      value, pending := 0xFFFF_FFFF, false;
    }

    method Tick(ticks: u32)
      modifies this
      ensures View() == DecTick(old(View()), ticks)
    {
      if ticks == 0 {
        return;
      }
      var was := value;
      value := (was - ticks) % WORD;
      if was < HALF && value >= HALF {
        pending := true;
      }
    }

    method Store(v: u32)
      modifies this
      ensures View() == DecStore(old(View()), v)
      ensures value == v && pending == (old(pending) && v >= 0x8000_0000)
    {
      value := v;
      if v < HALF {
        pending := false;
      }
    }

    /** Taken once, and only with external interrupts on and no exception under
        way; otherwise it stays pending. */
    method Deliver(exception: bool, enabled: bool) returns (taken: bool)
      modifies `pending
      ensures taken == (old(pending) && !exception && enabled)
      ensures pending == (old(pending) && !taken)
    {
      if !pending || exception || !enabled {
        return false;
      }
      pending := false;
      return true;
    }
  }

  class RealTimeClock {
    var counter: u32
    var anchor: u64
    var running: bool

    function View(): Rtc
      reads this
    {
      Rtc(counter, anchor, running)
    }

    constructor ()
      ensures View() == Rtc(0, 0, false)
    {
      counter, anchor, running := 0, 0, false;
    }

    method Start(from: u32, cycles: u64)
      modifies this
      ensures View() == Rtc(from, cycles, true)
    {
      counter, anchor, running := from, cycles, true;
    }

    method Fix(at: u32)
      modifies this
      ensures View() == Rtc(at, 0, false)
    {
      counter, anchor, running := at, 0, false;
    }

    /** A store rebases a running clock, so that it reads back at once. */
    method Write(v: u32, cycles: u64)
      modifies `counter, `anchor
      ensures View() == RtcStore(old(View()), v, cycles)
      ensures RtcRead(View(), cycles).value == v
    {
      counter := v;
      if running {
        anchor := cycles;
      }
    }

    method Read(cycles: u64) returns (v: u32)
      modifies `counter, `anchor
      ensures Reading(View(), v) == RtcRead(old(View()), cycles)
    {
      if !running {
        return counter;
      }
      if cycles < anchor {
        anchor := cycles;
        return counter;
      }
      var elapsed := cycles - anchor;
      var seconds := elapsed / HZ;
      if seconds != 0 {
        counter := (counter + seconds % WORD) % WORD;
        anchor := anchor + seconds * HZ;
      }
      return counter;
    }
  }
}
