/** Every DSP cycle is executed exactly once, by one thread at a time, and no
    drain hangs. */
module DspBatchProofs {
  import opened Bytes
  import opened DspBatch

  // ---- every step keeps the invariant -------------------------------------

  lemma CallAdds(s: Sys, c: int)
    requires c > 0 && c % RATIO == 0 && AllProper(s.calls)
    ensures var calls := s.calls + [Handed(c)];
            Executed(calls) + Lost(calls) == Executed(s.calls) + Lost(s.calls) + c && AllProper(calls)
  {
    CallSnoc(s.calls, Handed(c));
  }

  lemma TickKeepsInv(s: Sys, cycles: u32, halted: bool)
    requires Inv(s) && s.cpu.Idle?
    ensures Inv(TickStep(s, cycles, halted))
  {
    var sum := s.owed + cycles;
    assert sum == WORD * (sum / WORD) + sum % WORD;
  }

  lemma CapKeepsInv(s: Sys)
    requires Inv(s) && s.cpu.Capped?
    ensures Inv(CapStep(s))
  {
    WholeFacts(s.owed);
    hide Whole, Executed, Lost, Ran, Narrow;
  }

  lemma GrantKeepsInv(s: Sys)
    requires Inv(s) && (s.cpu.Granting? || s.cpu.WakeCheck? || s.cpu.WakeCall?)
    ensures Inv(GrantStep(s))
  {
    hide Executed, Lost;
  }

  lemma DrainKeepsInv(s: Sys)
    requires Inv(s) && s.cpu.Draining? && !s.cpu.stage.Asleep?
    ensures Inv(DrainStep(s))
  {
    hide Executed, Lost;
  }

  lemma ResidueKeepsInv(s: Sys)
    requires Inv(s) && s.cpu.Residue?
    ensures Inv(ResidueStep(s))
  {
    WholeFacts(s.owed);
    hide Whole, Executed, Lost, Ran, Narrow;
    if Whole(s.owed) != 0 {
      CallAdds(s, Whole(s.owed));
    }
  }

  lemma CpuKeepsInv(s: Sys)
    requires Inv(s) && CpuEnabled(s)
    ensures Inv(CpuStep(s))
  {
    hide CapStep, GrantStep, DrainStep, ResidueStep, Executed, Lost;
    match s.cpu
    case Capped(_) => CapKeepsInv(s);
    case Granting(_) => GrantKeepsInv(s);
    case WakeCheck => GrantKeepsInv(s);
    case WakeCall => GrantKeepsInv(s);
    case Draining(_, _) => DrainKeepsInv(s);
    case Residue(_) => ResidueKeepsInv(s);
    case Observing =>
  }

  lemma WorkKeepsConserved(s: Sys)
    requires Inv(s) && WorkerEnabled(s)
    ensures Conserved(WorkerStep(s))
  {
    hide Executed, Lost, Wakes;
    if s.worker.Run? {
      CallAdds(s, s.worker.upTo - s.mine);
    }
  }

  lemma WorkKeepsWakes(s: Sys)
    requires Inv(s) && WorkerEnabled(s)
    ensures Flow(WorkerStep(s)) && Wakes(WorkerStep(s))
  {
    hide Conserved, Executed, Lost;
  }

  lemma StepKeepsInv(s: Sys, l: Label)
    requires Inv(s) && Enabled(s, l)
    ensures Inv(Do(s, l))
  {
    hide TickStep, CpuStep, WorkerStep, CpuEnabled, WorkerEnabled, Executed, Lost;
    match l
    case Tick(n, halted) => TickKeepsInv(s, n, halted);
    case Cpu => CpuKeepsInv(s);
    case Work => WorkKeepsConserved(s); WorkKeepsWakes(s);
    case Read => StartKeepsInv(s, Do(s, l).cpu);
    case Write => StartKeepsInv(s, Do(s, l).cpu);
    case Peek => StartKeepsInv(s, Do(s, l).cpu);
    case GiveUp =>
    case Spurious =>
  }

  lemma StartKeepsInv(s: Sys, cpu: Cpu)
    requires Inv(s) && s.cpu.Idle?
    requires cpu.Idle? || (!s.threaded && (cpu.Residue? || cpu.Observing?))
             || (s.threaded && cpu.Draining? && cpu.stage.Check?)
    ensures Inv(s.(cpu := cpu))
  {
    hide Executed, Lost;
  }

  ghost predicate Reaches(threaded: bool, batch: u32, flushMin: u32, ls: seq<Label>, s: Sys) {
    batch >= RATIO && IsRun(Init(threaded, batch, flushMin), ls) && s == After(Init(threaded, batch, flushMin), ls)
  }

  lemma {:induction false} RunKeepsInv(s: Sys, ls: seq<Label>)
    requires Inv(s) && IsRun(s, ls)
    ensures Inv(After(s, ls))
    decreases |ls|
  {
    hide Inv, Do, Enabled;
    if ls != [] {
      StepKeepsInv(s, ls[0]);
      RunKeepsInv(Do(s, ls[0]), ls[1..]);
    }
  }

  lemma ReachedInv(threaded: bool, batch: u32, flushMin: u32, ls: seq<Label>, s: Sys)
    requires Reaches(threaded, batch, flushMin, ls, s)
    ensures Inv(s)
  {
    hide Inv, IsRun, After;
    InitInv(threaded, batch, flushMin);
    RunKeepsInv(Init(threaded, batch, flushMin), ls);
  }

  // ---- exactly once -------------------------------------------------------

  /** What the cast leaves: a call is run in full exactly if it fits an int; one
      of 2^31 up to 2^32 arrives negative and runs nothing. */
  lemma CallRuns(c: Call)
    requires Proper(c)
    ensures 0 <= Ran(c) <= c.due
    ensures Ran(c) == c.due <==> c.due <= INT_MAX
    ensures INT_MAX < c.due < WORD ==> Ran(c) == 0
  {
    if c.due <= INT_MAX {
      SmallMod(c.due);
    } else if c.due < WORD {
      SmallMod(c.due);
    }
  }

  lemma SmallMod(n: nat)
    requires n < WORD
    ensures n % WORD == n
  {
  }

  lemma {:induction false} LossesAddUp(calls: seq<Call>)
    requires AllProper(calls)
    ensures Lost(calls) >= 0 && Executed(calls) >= 0
    ensures Lost(calls) == 0 <==> AllFit(calls)
    ensures (Executed(calls) + Lost(calls)) % RATIO == 0
  {
    if calls != [] {
      var z, c := calls[..|calls| - 1], calls[|calls| - 1];
      LossesAddUp(z);
      CallRuns(c);
      hide Proper, Ran;
      assert AllFit(calls) <==> AllFit(z) && c.due <= INT_MAX by {
        assert forall i :: 0 <= i < |z| ==> z[i] == calls[i];
      }
      DueDivides(c);
      SumDivides(Executed(z) + Lost(z), c.due);
    }
  }

  lemma DueDivides(c: Call)
    requires Proper(c)
    ensures c.due % RATIO == 0
  {
  }

  lemma SumDivides(a: int, b: int)
    requires a % RATIO == 0 && b % RATIO == 0
    ensures (a + b) % RATIO == 0
  {
  }

  /** CONSERVATION.  At every moment of every run, cycles run by the core, plus
      those granted and not run, owed, and discarded while the core was halted,
      are the cycles ticked less those lost in casts and wraps; so nothing is
      missing if and only if the debt never wrapped and every call of the core
      was for at most 2^31 - 1 cycles.  Every call is for a positive multiple of
      six. */
  lemma ExactlyOnce(threaded: bool, batch: u32, flushMin: u32, ls: seq<Label>, s: Sys)
    requires Reaches(threaded, batch, flushMin, ls, s)
    ensures Accounted(s) + Lost(s.calls) + WORD * s.wraps == s.ticked && Lost(s.calls) >= 0
    ensures Accounted(s) == s.ticked <==> s.wraps == 0 && AllFit(s.calls)
    ensures AllProper(s.calls)
    ensures s.cpu.Idle? ==> s.owed < s.batch
  {
    ReachedInv(threaded, batch, flushMin, ls, s);
    LossesAddUp(s.calls);
    hide IsRun, After, Executed, Lost, AllFit, Accounted;
  }

  /** The debt wraps exactly when a tick carries it past 32 bits, which no tick
      does that leaves room for the cap. */
  lemma WrapExactly(threaded: bool, batch: u32, flushMin: u32, ls: seq<Label>, s: Sys, cycles: u32, halted: bool)
    requires Reaches(threaded, batch, flushMin, ls, s) && s.cpu.Idle?
    ensures TickStep(s, cycles, halted).wraps == s.wraps <==> s.owed + cycles < WORD
    ensures cycles <= WORD - s.batch ==> TickStep(s, cycles, halted).wraps == s.wraps
  {
    ReachedInv(threaded, batch, flushMin, ls, s);
    hide IsRun, After, Conserved, Wakes;
  }

  /** With a cap near the top of the word two large ticks do lose 2^32 cycles. */
  lemma WrapLosesCycles()
    ensures var ls := [Tick(0xFFFF_0000, false), Tick(0x1_0000, false)];
            var s0 := Init(false, 0xFFFF_FFFF, 0);
            && IsRun(s0, ls) && After(s0, ls).ticked == WORD && After(s0, ls).owed == 0 && After(s0, ls).calls == []
  {
    var ls: seq<Label> := [Tick(0xFFFF_0000, false), Tick(0x1_0000, false)];
    var s0 := Init(false, 0xFFFF_FFFF, 0);
    var s1 := Do(s0, ls[0]);
    assert s1 == s0.(owed := 0xFFFF_0000, ticked := 0xFFFF_0000);
    assert ls[1..] == [Tick(0x1_0000, false)];
    assert ls[1..][1..] == [];
  }

  /** With the default cap one tick of 0x8000_0004 loses all of itself and
      nothing wraps: its call reaches the core as a negative number. */
  lemma CastLosesCycles()
    ensures var s := ResidueStep(TickStep(Init(false, 4096, 0), 0x8000_0004, false));
            && s.wraps == 0 && s.owed == 0 && s.calls == [Call(0x8000_0004, -0x7FFF_FFFC)]
            && Executed(s.calls) == 0 && Lost(s.calls) == s.ticked == 0x8000_0004
  {
    var c := Handed(0x8000_0004);
    assert [c][..0] == [];
    assert Executed([c]) == Ran(c) && Lost([c]) == c.due - Ran(c);
  }

  /** FULL FLUSH.  When a flush has run the debt inline, what the core has run
      or been spared is the whole part of the cycles ticked, wherever the grants
      and earlier flushes fell, if and only if nothing was lost. */
  lemma FlushTotal(threaded: bool, batch: u32, flushMin: u32, ls: seq<Label>, s: Sys)
    requires Reaches(threaded, batch, flushMin, ls, s) && s.cpu.Residue?
    ensures var t := ResidueStep(s);
            && t.owed < RATIO && t.granted == t.mine && t.ticked == s.ticked && t.wraps == s.wraps
            && Executed(t.calls) + Lost(t.calls) + t.discarded == Whole(t.ticked - WORD * t.wraps)
            && (Executed(t.calls) + t.discarded == Whole(t.ticked) <==> t.wraps == 0 && AllFit(t.calls))
  {
    AfterFlush(threaded, batch, flushMin, ls, s);
    var t := ResidueStep(s);
    LossesAddUp(t.calls);
    hide Reaches, Executed, Lost, AllFit, AllProper, ResidueStep, Whole;
    FlushAdds(Executed(t.calls), Lost(t.calls), t.discarded, t.owed, t.ticked, t.wraps);
  }

  lemma FlushAdds(run: int, lost: nat, spared: int, owed: nat, ticked: int, wraps: nat)
    requires (run + lost) % RATIO == 0 && spared % RATIO == 0 && owed < RATIO
    requires run + lost + owed + spared + WORD * wraps == ticked
    ensures run + lost + spared == Whole(ticked - WORD * wraps)
    ensures run + spared == Whole(ticked) <==> wraps == 0 && lost == 0
  {
    SumDivides(run + lost, spared);
    WholeUnique(run + lost + spared, owed);
    WholeFewer(ticked, wraps);
    hide Whole;
  }

  lemma WholeUnique(n: int, r: nat)
    requires n % RATIO == 0 && r < RATIO
    ensures Whole(n + r) == n
  {
  }

  lemma WholeFewer(n: int, wraps: nat)
    ensures wraps > 0 ==> Whole(n - WORD * wraps) < Whole(n)
  {
    if wraps > 0 {
      assert WORD * wraps >= WORD;
    }
  }

  /** Two machines that ticked the same number of cycles and lost none agree
      after a flush on what was run or spared, and on what is owed, however each
      batched, granted and flushed before. */
  lemma TotalsAgree(t1: bool, b1: u32, f1: u32, ls1: seq<Label>, s1: Sys, t2: bool, b2: u32, f2: u32, ls2: seq<Label>, s2: Sys)
    requires Reaches(t1, b1, f1, ls1, s1) && s1.cpu.Residue? && s1.wraps == 0 && AllFit(ResidueStep(s1).calls)
    requires Reaches(t2, b2, f2, ls2, s2) && s2.cpu.Residue? && s2.wraps == 0 && AllFit(ResidueStep(s2).calls)
    requires s1.ticked == s2.ticked
    ensures var r1, r2 := ResidueStep(s1), ResidueStep(s2);
            Executed(r1.calls) + r1.discarded == Executed(r2.calls) + r2.discarded && r1.owed == r2.owed
  {
    hide Reaches, Executed, Lost, Whole, AllFit;
    FlushTotal(t1, b1, f1, ls1, s1);
    FlushTotal(t2, b2, f2, ls2, s2);
    AfterFlush(t1, b1, f1, ls1, s1);
    AfterFlush(t2, b2, f2, ls2, s2);
  }

  lemma AfterFlush(threaded: bool, batch: u32, flushMin: u32, ls: seq<Label>, s: Sys)
    requires Reaches(threaded, batch, flushMin, ls, s) && s.cpu.Residue?
    ensures var t := ResidueStep(s);
            && Executed(t.calls) + Lost(t.calls) + t.owed + t.discarded + WORD * t.wraps == t.ticked
            && t.owed < RATIO && t.granted == t.mine && t.ticked == s.ticked && t.wraps == s.wraps
            && t.discarded % RATIO == 0 && AllProper(t.calls)
  {
    ReachedInv(threaded, batch, flushMin, ls, s);
    ResidueKeepsInv(s);
    WholeFacts(s.owed);
    hide IsRun, After, Executed, Lost, Wakes, Whole, AllProper;
  }

  /** EXCLUSION.  The CPU runs the core or touches its mailboxes, control or ARAM
      only when every granted cycle has been consumed, and then the worker is
      not executing; the halted test at the cap is as safe. */
  lemma OneThreadAtATime(threaded: bool, batch: u32, flushMin: u32, ls: seq<Label>, s: Sys)
    requires Reaches(threaded, batch, flushMin, ls, s)
    ensures s.cpu.Residue? || s.cpu.Observing? ==> s.consumed == s.granted && !s.worker.Run?
    ensures s.cpu.Capped? && s.consumed == s.granted ==> !s.worker.Run?
  {
    ReachedInv(threaded, batch, flushMin, ls, s);
    hide IsRun, After, Executed, Lost, Conserved, Wakes;
  }

  // ---- no drain hangs -----------------------------------------------------

  function Rank(w: Worker): nat {
    match w
    case Publish => 9
    case Notify => 8
    case WakeCpu => 7
    case Park => 6
    case Comparing => 5
    case Unpark => 4
    case Spin => 3
    case Top => 2
    case Run(_) => 1
    case Sleeping => 0
  }

  function WorkLeft(s: Sys): int {
    10 * (s.granted - s.mine) + Rank(s.worker)
  }

  ghost predicate Unserved(s: Sys) {
    s.cpu.Draining? && s.consumed != s.granted
  }

  /** While a drain waits the worker is awake and has a step, every step of it
      brings the end nearer, and nothing else sends it back: a schedule that does
      not starve the worker ends the drain. */
  lemma DrainAdvances(s: Sys, l: Label)
    requires Inv(s) && Unserved(s)
    ensures WorkerEnabled(s) && WorkLeft(s) >= 0
    ensures Enabled(s, l) ==> WorkLeft(Do(s, l)) <= WorkLeft(s) - if l.Work? then 1 else 0
  {
    hide Executed, Lost;
    if l.Cpu? && CpuEnabled(s) {
      hide WorkerStep;
    }
  }

  /** A worker asleep with cycles granted is about to be woken by the CPU. */
  lemma SleepingWorkerIsWoken(s: Sys)
    requires Inv(s) && s.worker.Sleeping? && s.granted != s.mine
    ensures s.parked && (s.cpu.WakeCheck? || s.cpu.WakeCall?)
    ensures s.cpu.WakeCheck? ==> CpuStep(s).cpu.WakeCall? && CpuStep(CpuStep(s)).worker.Unpark?
    ensures s.cpu.WakeCall? ==> CpuStep(s).worker.Unpark?
  {
    hide Executed, Lost;
  }

  /** A CPU asleep in a drain that is over is about to be woken by the worker. */
  lemma SleepingCpuIsWoken(s: Sys)
    requires Inv(s) && s.cpu.Draining? && s.cpu.stage.Asleep? && s.consumed == s.granted
    ensures s.waiting && (s.worker.Notify? || s.worker.WakeCpu?)
    ensures s.worker.Notify? ==> WorkerStep(s).worker.WakeCpu? && WorkerStep(WorkerStep(s)).cpu == Draining(Disarm, s.cpu.next)
    ensures s.worker.WakeCpu? ==> WorkerStep(s).cpu == Draining(Disarm, s.cpu.next)
  {
    hide Executed, Lost;
  }
}
