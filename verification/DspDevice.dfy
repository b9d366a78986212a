/** The DSP clock as the runtime keeps it with the worker off: a 32-bit debt, a
    cap, and a core that is run from flushes (`gcn_dsp_flush` and its kin). */
module DspDevice {
  import opened Bytes
  import opened DspBatch
  import opened DspBatchProofs

  class Clock {
    const batch: u32
    const flushMin: u32
    var owed: u32
    ghost var calls: seq<Call>
    ghost var ticked: int
    ghost var wraps: nat

    constructor (cap: u32, flushMin: u32)
      ensures batch == (if cap < RATIO then RATIO else cap) && this.flushMin == flushMin
      ensures View() == Init(false, batch, flushMin)
    {
      batch := if cap < RATIO then RATIO else cap;
      this.flushMin := flushMin;
      owed, calls, ticked, wraps := 0, [], 0, 0;
    }

    /** The machine without a worker, between operations of the CPU. */
    ghost function View(): Sys
      reads this
    {
      Sys(false, batch, flushMin, owed, 0, 0, false, false, 0, Idle, Top, calls, ticked, 0, wraps)
    }

    /** Call the core for `due` cycles with what the cast makes of them: its
        effect is not part of this object. */
    ghost method Core(due: int, arg: int)
      modifies `calls
      ensures calls == old(calls) + [Call(due, arg)]
    {
      calls := calls + [Call(due, arg)];
    }

    method Flush()
      modifies `owed, `calls
      ensures View() == ResidueStep(old(View()).(cpu := Residue(false)))
      ensures owed < RATIO
    {
      WholeFacts(owed);
      var whole := owed - owed % RATIO;
      if whole == 0 {
        return;
      }
      owed := owed - whole;
      Core(whole, if whole <= INT_MAX then whole else whole - WORD);
    }

    /** A read of a DSP register brings the core up to date only when enough is
        owed. */
    method FlushLazy()
      modifies `owed, `calls
      ensures old(owed) < flushMin ==> View() == old(View())
      ensures old(owed) >= flushMin ==> View() == ResidueStep(old(View()).(cpu := Residue(false)))
      ensures owed < RATIO || owed < flushMin
    {
      if owed < flushMin {
        return;
      }
      Flush();
    }

    method Tick(cycles: u32)
      modifies `owed, `calls, `ticked, `wraps
      ensures var t := TickStep(old(View()), cycles, false);
              View() == if t.cpu.Residue? then ResidueStep(t) else t
      ensures Inv(old(View())) ==> Inv(View())
    {
      hide Inv;
      ghost var before := View();
      ticked := ticked + cycles;
      wraps := wraps + (owed + cycles) / WORD;
      owed := (owed + cycles) % WORD;
      if owed >= batch {
        Flush();
      }
      if Inv(before) {
        TickAndFlushKeepsInv(before, cycles);
      }
    }
  }

  lemma TickAndFlushKeepsInv(s: Sys, cycles: u32)
    requires Inv(s) && s.cpu.Idle?
    ensures var t := TickStep(s, cycles, false); Inv(if t.cpu.Residue? then ResidueStep(t) else t)
  {
    hide Inv, TickStep, ResidueStep;
    TickKeepsInv(s, cycles, false);
    var t := TickStep(s, cycles, false);
    if t.cpu.Residue? {
      ResidueKeepsInv(t);
    }
  }
}
