/** When the cast of a core call to int loses cycles, in terms a caller can check
    before a tick: cap, tick and backlog. */
module DspLosses {
  import opened Bytes
  import opened DspBatch
  import opened DspBatchProofs

  predicate Lossless(s: Sys) {
    s.wraps == 0 && AllFit(s.calls)
  }

  /** How far the worker is once the call it is making has returned. */
  function Reached(s: Sys): int {
    if s.worker.Run? then s.worker.upTo else s.mine
  }

  /** The tick leaves a debt, and with a worker a backlog, that one call can run. */
  predicate Roomy(s: Sys, cycles: u32, halted: bool) {
    var debt := s.owed + cycles;
    if !s.threaded || debt < s.batch then debt <= MOST
    else debt < WORD && ((halted && s.consumed == s.granted) || s.granted - Reached(s) + debt <= MOST)
  }

  /** Nothing has been lost, and nothing that is owed or granted can be. */
  predicate Sound(s: Sys) {
    && Lossless(s)
    && (s.worker.Run? ==> s.worker.upTo - s.mine <= INT_MAX)
    && (if s.cpu.Capped? then (s.cpu.halted && s.consumed == s.granted) || s.granted - Reached(s) + s.owed <= MOST
        else s.granted + Pending(s.cpu) - Reached(s) <= INT_MAX && s.owed <= MOST)
  }

  // ---- roomy ticks lose nothing -------------------------------------------

  /** Six does not divide the numbers between what an int holds and the bound. */
  lemma WholeFits(backlog: int, debt: nat)
    requires backlog % RATIO == 0
    ensures backlog + Whole(debt) <= INT_MAX <==> backlog + debt <= MOST
  {
  }

  lemma FitsSnoc(calls: seq<Call>, c: Call)
    ensures AllFit(calls + [c]) <==> AllFit(calls) && c.due <= INT_MAX
  {
    if AllFit(calls + [c]) {
      assert (calls + [c])[|calls|] == c;
      assert forall i :: 0 <= i < |calls| ==> (calls + [c])[i] == calls[i];
    }
  }

  lemma TickSound(s: Sys, cycles: u32, halted: bool)
    requires Inv(s) && Sound(s) && s.cpu.Idle? && Roomy(s, cycles, halted)
    ensures Sound(TickStep(s, cycles, halted))
  {
    hide Conserved, Wakes, AllFit;
    var debt := s.owed + cycles;
    assert debt < WORD && debt % WORD == debt && debt / WORD == 0 by {
      WholeFits(s.granted - Reached(s), debt);
      BacklogPositive(s);
      SmallMod(debt);
    }
  }

  lemma BacklogPositive(s: Sys)
    requires Inv(s)
    ensures s.granted >= Reached(s) && (s.granted - Reached(s)) % RATIO == 0
  {
    assert s.granted % RATIO == 0 && Reached(s) % RATIO == 0 && s.granted >= Reached(s) by {
      hide Conserved, Wakes;
    }
    hide Inv, Reached;
    DifferenceDivides(s.granted, Reached(s));
  }

  lemma DifferenceDivides(a: int, b: int)
    requires a % RATIO == 0 && b % RATIO == 0
    ensures (a - b) % RATIO == 0
  {
  }

  lemma CapSound(s: Sys)
    requires Inv(s) && Sound(s) && s.cpu.Capped?
    ensures Sound(CapStep(s))
  {
    BacklogPositive(s);
    WholeFits(s.granted - Reached(s), s.owed);
    hide Conserved, Wakes, AllFit, Whole;
  }

  lemma ResidueSound(s: Sys)
    requires Inv(s) && Sound(s) && s.cpu.Residue?
    ensures Sound(ResidueStep(s))
  {
    WholeFits(0, s.owed);
    FitsSnoc(s.calls, Handed(Whole(s.owed)));
    hide Conserved, Wakes, AllFit, Whole, Narrow;
  }

  lemma CpuSound(s: Sys)
    requires Inv(s) && Sound(s) && CpuEnabled(s)
    ensures Sound(CpuStep(s))
  {
    hide Conserved, Wakes, AllFit, CapStep, ResidueStep;
    match s.cpu
    case Capped(_) => CapSound(s);
    case Residue(_) => ResidueSound(s);
    case _ =>
  }

  lemma WorkSound(s: Sys)
    requires Inv(s) && Sound(s) && WorkerEnabled(s)
    ensures Sound(WorkerStep(s))
  {
    BacklogPositive(s);
    WholeFits(s.granted - Reached(s), s.owed);
    if s.worker.Run? {
      FitsSnoc(s.calls, Handed(s.worker.upTo - s.mine));
    }
    hide Conserved, Wakes, AllFit, Narrow;
  }

  lemma StepSound(s: Sys, l: Label)
    requires Inv(s) && Sound(s) && Enabled(s, l)
    requires l.Tick? ==> Roomy(s, l.cycles, l.halted)
    ensures Sound(Do(s, l))
  {
    hide Inv, AllFit, TickStep, CpuStep, WorkerStep, CpuEnabled, WorkerEnabled, Roomy;
    match l
    case Tick(n, halted) => TickSound(s, n, halted);
    case Cpu => CpuSound(s);
    case Work => WorkSound(s);
    case _ =>
  }

  /** Every tick of the run is roomy when it comes. */
  ghost predicate Guarded(s: Sys, ls: seq<Label>)
    requires IsRun(s, ls)
    decreases |ls|
  {
    ls != [] ==>
      (ls[0].Tick? ==> Roomy(s, ls[0].cycles, ls[0].halted)) && Guarded(Do(s, ls[0]), ls[1..])
  }

  lemma {:induction false} RunSound(s: Sys, ls: seq<Label>)
    requires Inv(s) && Sound(s) && IsRun(s, ls) && Guarded(s, ls)
    ensures Sound(After(s, ls))
    decreases |ls|
  {
    hide Inv, Sound, Do, Enabled, Roomy;
    if ls != [] {
      StepKeepsInv(s, ls[0]);
      StepSound(s, ls[0]);
      RunSound(Do(s, ls[0]), ls[1..]);
    }
  }

  /** THE GUARD SUFFICES.  In every run, under every schedule, in which each tick
      is roomy when it comes, no cycle is ever lost: all that was ticked has been
      run, is still to be run, or was spared while the core was halted. */
  lemma GuardedIsLossless(threaded: bool, batch: u32, flushMin: u32, ls: seq<Label>, s: Sys)
    requires Reaches(threaded, batch, flushMin, ls, s) && Guarded(Init(threaded, batch, flushMin), ls)
    ensures Lossless(s) && Accounted(s) == s.ticked
  {
    ExactlyOnce(threaded, batch, flushMin, ls, s);
    InitInv(threaded, batch, flushMin);
    hide IsRun, After, Accounted;
    RunSound(Init(threaded, batch, flushMin), ls);
  }

  // ---- others can lose ----------------------------------------------------

  lemma RunCons(s: Sys, l: Label, ls: seq<Label>)
    requires Enabled(s, l) && IsRun(Do(s, l), ls)
    ensures IsRun(s, [l] + ls) && After(s, [l] + ls) == After(Do(s, l), ls)
  {
    hide Do, Enabled;
    assert ([l] + ls)[1..] == ls;
  }

  lemma Nothing(s: Sys)
    ensures IsRun(s, []) && After(s, []) == s
  {
  }

  lemma {:induction false} RunsCompose(s: Sys, a: seq<Label>, b: seq<Label>)
    requires IsRun(s, a) && IsRun(After(s, a), b)
    ensures IsRun(s, a + b) && After(s, a + b) == After(After(s, a), b)
    decreases |a|
  {
    hide Do, Enabled;
    if a == [] {
      assert a + b == b;
    } else {
      assert (a + b)[1..] == a[1..] + b;
      RunsCompose(Do(s, a[0]), a[1..], b);
    }
  }

  predicate TickFree(ls: seq<Label>) {
    forall i :: 0 <= i < |ls| ==> !ls[i].Tick?
  }

  function TopRank(w: Worker): nat {
    match w
    case Run(_) => 9
    case Publish => 8
    case Notify => 7
    case WakeCpu => 6
    case Park => 5
    case Comparing => 4
    case Sleeping => 3
    case Unpark => 2
    case Spin => 1
    case Top => 0
  }

  predicate Leaving(cpu: Cpu) {
    cpu.Idle? || cpu.WakeCheck? || cpu.WakeCall?
  }

  lemma TowardsTop(s: Sys)
    requires Inv(s) && Leaving(s.cpu) && s.granted > Reached(s) && !s.worker.Top?
    ensures var l := if s.worker.Sleeping? then Cpu else Work;
            && Enabled(s, l)
            && var t := Do(s, l);
               && Leaving(t.cpu) && t.granted == s.granted && Reached(t) == Reached(s)
               && (TopRank(t.worker) < TopRank(s.worker)
                   || (TopRank(t.worker) == TopRank(s.worker) && s.cpu.WakeCheck? && !t.cpu.WakeCheck?))
  {
    hide Conserved;
  }

  /** The worker finishes what it is doing and looks at what is granted. */
  lemma {:induction false} ToTop(s: Sys) returns (ls: seq<Label>)
    requires Inv(s) && Leaving(s.cpu) && s.granted > Reached(s)
    ensures TickFree(ls) && IsRun(s, ls)
    ensures var t := After(s, ls); Inv(t) && t.worker.Top? && t.granted == s.granted && t.mine == Reached(s)
    decreases TopRank(s.worker), if s.cpu.WakeCheck? then 1 else 0
  {
    hide Inv, Do, Enabled, TopRank, Leaving;
    if s.worker.Top? {
      ls := [];
    } else {
      TowardsTop(s);
      var l := if s.worker.Sleeping? then Cpu else Work;
      StepKeepsInv(s, l);
      var rest := ToTop(Do(s, l));
      RunCons(s, l, rest);
      ls := [l] + rest;
    }
  }

  /** A backlog that no int holds is taken up in one call, which loses it. */
  lemma BacklogLoses(s: Sys) returns (ls: seq<Label>)
    requires Inv(s) && Leaving(s.cpu) && s.granted - Reached(s) > INT_MAX
    ensures TickFree(ls) && IsRun(s, ls) && !Lossless(After(s, ls))
  {
    var top := ToTop(s);
    hide IsRun, After, Inv;
    var t := After(s, top);
    var u := Do(t, Work);
    var v := Do(u, Work);
    FitsSnoc(u.calls, Handed(u.worker.upTo - u.mine));
    Nothing(v);
    RunCons(u, Work, []);
    RunCons(t, Work, [Work] + []);
    RunsCompose(s, top, [Work] + ([Work] + []));
    ls := top + ([Work] + ([Work] + []));
  }

  lemma DrainWorks(s: Sys)
    requires Inv(s) && s.cpu.Draining? && s.cpu.stage.Check? && s.consumed != s.granted
    ensures Enabled(s, Work) && Do(s, Work).cpu == s.cpu && Do(s, Work).owed == s.owed
    ensures 0 <= WorkLeft(Do(s, Work)) < WorkLeft(s)
  {
    DrainAdvances(s, Work);
    StepKeepsInv(s, Work);
    hide Conserved;
  }

  lemma {:induction false} DrainEnds(s: Sys) returns (ls: seq<Label>)
    requires Inv(s) && s.cpu.Draining? && s.cpu.stage.Check?
    ensures TickFree(ls) && IsRun(s, ls)
    ensures var t := After(s, ls); Inv(t) && t.cpu == s.cpu && t.owed == s.owed && t.consumed == t.granted
    decreases WorkLeft(s)
  {
    hide Inv, Do, Enabled, WorkLeft;
    if s.consumed == s.granted {
      ls := [];
    } else {
      DrainWorks(s);
      StepKeepsInv(s, Work);
      var rest := DrainEnds(Do(s, Work));
      RunCons(s, Work, rest);
      ls := [Work] + rest;
    }
  }

  lemma ResidueLoses(s: Sys)
    requires s.cpu.Residue? && s.owed > MOST
    ensures IsRun(s, [Cpu] + []) && !Lossless(After(s, [Cpu] + []))
  {
    WholeFits(0, s.owed);
    FitsSnoc(s.calls, Handed(Whole(s.owed)));
    hide IsRun, After, Whole, AllFit, WorkerEnabled, Narrow;
    Nothing(Do(s, Cpu));
    RunCons(s, Cpu, []);
  }

  /** A debt that no int holds is run by the next store to the DSP, and lost. */
  lemma DebtLoses(s: Sys) returns (ls: seq<Label>)
    requires Inv(s) && s.cpu.Idle? && s.owed > MOST
    ensures TickFree(ls) && IsRun(s, ls) && !Lossless(After(s, ls))
  {
    StepKeepsInv(s, Write);
    var t := Do(s, Write);
    if s.threaded {
      var drain := DrainEnds(t);
      hide IsRun, After, Inv, Lossless;
      var u := After(t, drain);
      ResidueLoses(Do(u, Cpu));
      RunCons(u, Cpu, [Cpu] + []);
      RunsCompose(t, drain, [Cpu] + ([Cpu] + []));
      RunCons(s, Write, drain + ([Cpu] + ([Cpu] + [])));
      ls := [Write] + (drain + ([Cpu] + ([Cpu] + [])));
    } else {
      hide IsRun, After, Inv, Lossless;
      ResidueLoses(t);
      RunCons(s, Write, [Cpu] + []);
      ls := [Write] + ([Cpu] + []);
    }
  }

  lemma CapGrants(s: Sys)
    requires Inv(s) && s.cpu.Capped? && s.owed >= RATIO && !(s.cpu.halted && s.consumed == s.granted)
    requires s.granted - Reached(s) + s.owed > MOST
    ensures CpuEnabled(s) && CpuEnabled(CapStep(s))
    ensures var t := CpuStep(CapStep(s)); t.cpu.WakeCheck? && t.granted - Reached(t) > INT_MAX
  {
    BacklogPositive(s);
    WholeFits(s.granted - Reached(s), s.owed);
    WholeFacts(s.owed);
    hide Inv, Whole;
  }

  lemma TickCanLose(s: Sys, cycles: u32, halted: bool) returns (ls: seq<Label>)
    requires Inv(s) && s.cpu.Idle? && !Roomy(s, cycles, halted)
    ensures var t := TickStep(s, cycles, halted);
            TickFree(ls) && IsRun(t, ls) && !Lossless(After(t, ls))
  {
    var debt, t := s.owed + cycles, TickStep(s, cycles, halted);
    TickKeepsInv(s, cycles, halted);
    TickFields(s, cycles, halted);
    if debt >= WORD {
      Nothing(t);
      ls := [];
    } else if t.cpu.Idle? {
      ls := DebtLoses(t);
    } else if t.cpu.Residue? {
      ResidueLoses(t);
      ls := [Cpu] + [];
    } else {
      CapGrants(t);
      var u := CapStep(t);
      var v := CpuStep(u);
      StepKeepsInv(t, Cpu);
      StepKeepsInv(u, Cpu);
      hide IsRun, After, Inv, CpuStep, CapStep, Lossless, TickStep;
      var rest := BacklogLoses(v);
      RunCons(u, Cpu, rest);
      RunCons(t, Cpu, [Cpu] + rest);
      ls := [Cpu] + ([Cpu] + rest);
    }
  }

  lemma TickFields(s: Sys, cycles: u32, halted: bool)
    requires Inv(s) && s.cpu.Idle?
    ensures var debt, t := s.owed + cycles, TickStep(s, cycles, halted);
            && (debt >= WORD ==> t.wraps > 0)
            && (debt < WORD ==>
                  && t == s.(owed := debt, ticked := s.ticked + cycles, cpu := t.cpu)
                  && t.cpu == (if debt < s.batch then Idle else if s.threaded then Capped(halted) else Residue(false))
                  && s.batch >= RATIO)
  {
    hide Conserved, Wakes;
    if s.owed + cycles < WORD {
      SmallMod(s.owed + cycles);
    }
  }

  /** EXACT CONDITION.  From a state in which nothing is lost or bound to be, a
      tick is followed by no loss, whatever the schedule and the guest's
      accesses until the next one, if and only if it is roomy. */
  lemma TickIsSafeExactly(s: Sys, cycles: u32, halted: bool)
    requires Inv(s) && Sound(s) && s.cpu.Idle?
    ensures var t := TickStep(s, cycles, halted);
            (forall ls :: TickFree(ls) && IsRun(t, ls) ==> Lossless(After(t, ls))) <==> Roomy(s, cycles, halted)
  {
    var t := TickStep(s, cycles, halted);
    if Roomy(s, cycles, halted) {
      TickKeepsInv(s, cycles, halted);
      TickSound(s, cycles, halted);
      forall ls | TickFree(ls) && IsRun(t, ls)
        ensures Lossless(After(t, ls))
      {
        TickFreeGuarded(t, ls);
        RunSound(t, ls);
      }
    } else {
      var ls := TickCanLose(s, cycles, halted);
    }
  }

  lemma {:induction false} TickFreeGuarded(s: Sys, ls: seq<Label>)
    requires IsRun(s, ls) && TickFree(ls)
    ensures Guarded(s, ls)
    decreases |ls|
  {
    hide Do, Enabled, Roomy;
    if ls != [] {
      TickFreeGuarded(Do(s, ls[0]), ls[1..]);
    }
  }

  // ---- without a worker ---------------------------------------------------

  predicate TicksAtMost(ls: seq<Label>, largest: u32) {
    forall i :: 0 <= i < |ls| ==> ls[i].Tick? ==> ls[i].cycles <= largest
  }

  lemma {:induction false} SmallTicksGuarded(s: Sys, ls: seq<Label>, largest: u32)
    requires Inv(s) && IsRun(s, ls) && TicksAtMost(ls, largest)
    requires !s.threaded && s.batch + largest <= MOST + 1
    ensures Guarded(s, ls)
    decreases |ls|
  {
    hide Inv, Do, Enabled, Roomy;
    if ls != [] {
      if ls[0].Tick? {
        SmallTickRoomy(s, ls[0].cycles, ls[0].halted, largest);
      }
      StepKeepsInv(s, ls[0]);
      StepKeepsKind(s, ls[0]);
      SmallTicksGuarded(Do(s, ls[0]), ls[1..], largest);
    }
  }

  lemma SmallTickRoomy(s: Sys, cycles: u32, halted: bool, largest: u32)
    requires Inv(s) && Enabled(s, Tick(cycles, halted)) && cycles <= largest
    requires !s.threaded && s.batch + largest <= MOST + 1
    ensures Roomy(s, cycles, halted)
  {
    hide Conserved, Wakes;
  }

  lemma StepKeepsKind(s: Sys, l: Label)
    requires Enabled(s, l)
    ensures Do(s, l).threaded == s.threaded && Do(s, l).batch == s.batch
  {
  }

  function Accrual(n: nat): (ls: seq<Label>)
    ensures |ls| == n && forall i :: 0 <= i < n ==> ls[i] == Tick(1, false)
  {
    seq(n, _ => Tick(1, false))
  }

  /** Ticks of one cycle each bring the debt to any value below the cap. */
  lemma {:induction false} AccrualRuns(s: Sys, n: nat)
    requires s.cpu.Idle? && s.owed + n < s.batch
    ensures IsRun(s, Accrual(n)) && After(s, Accrual(n)) == s.(owed := s.owed + n, ticked := s.ticked + n)
    decreases n
  {
    if n > 0 {
      var t := s.(owed := s.owed + 1, ticked := s.ticked + 1);
      SmallMod(s.owed + 1);
      assert Do(s, Tick(1, false)) == t;
      AccrualRuns(t, n - 1);
      assert Accrual(n)[1..] == Accrual(n - 1);
    }
  }

  /** STATIC BOUND.  Without a worker, runs whose ticks are of at most `largest`
      cycles lose nothing, all of them, if and only if cap and largest tick
      together are at most 0x8000_0004. */
  lemma StaticBound(batch: u32, flushMin: u32, largest: u32)
    requires batch >= RATIO && largest > 0
    ensures var s0 := Init(false, batch, flushMin);
            (forall ls :: IsRun(s0, ls) && TicksAtMost(ls, largest) ==> Lossless(After(s0, ls)))
            <==> batch + largest <= 0x8000_0004
  {
    var s0 := Init(false, batch, flushMin);
    InitInv(false, batch, flushMin);
    if batch + largest <= 0x8000_0004 {
      hide Inv, IsRun, After;
      forall ls | IsRun(s0, ls) && TicksAtMost(ls, largest)
        ensures Lossless(After(s0, ls))
      {
        SmallTicksGuarded(s0, ls, largest);
        RunSound(s0, ls);
      }
    } else {
      var a := Accrual(batch - 1);
      AccrualRuns(s0, batch - 1);
      hide Inv, IsRun, After;
      var s := After(s0, a);
      RunKeepsInv(s0, a);
      var rest := TickCanLose(s, largest, false);
      RunCons(s, Tick(largest, false), rest);
      var b := [Tick(largest, false)] + rest;
      RunsCompose(s0, a, b);
      assert TicksAtMost(a + b, largest);
    }
  }

  // ---- with a worker ------------------------------------------------------

  /** The worker has not come to look yet. */
  ghost predicate Piling(s: Sys) {
    && Inv(s) && s.threaded && s.batch >= RATIO
    && s.cpu.Idle? && s.worker.Top? && !s.parked && s.granted - s.mine <= MOST
  }

  function Pile(s: Sys): int {
    s.granted - s.mine + s.owed
  }

  /** At the cap the whole part of the debt is granted, in three steps. */
  lemma GrantRuns(s: Sys)
    requires s.cpu == Capped(false) && s.owed >= RATIO && !s.parked
    ensures var ls, whole := [Cpu, Cpu, Cpu], Whole(s.owed);
            IsRun(s, ls) && After(s, ls) == s.(owed := s.owed - whole, granted := s.granted + whole, cpu := Idle)
  {
    assert [Cpu, Cpu, Cpu][1..] == [Cpu, Cpu] && [Cpu, Cpu][1..] == [Cpu] && [Cpu][1..] == [];
    var t := CapStep(s);
    var u := GrantStep(t);
    assert IsRun(u, [Cpu]) && After(u, [Cpu]) == GrantStep(u);
    assert IsRun(t, [Cpu, Cpu]) && After(t, [Cpu, Cpu]) == GrantStep(u);
  }

  /** A tick of one cycle, and the grant it may bring on, pile up one cycle. */
  lemma PileOne(s: Sys) returns (ls: seq<Label>)
    requires Piling(s) && Roomy(s, 1, false)
    ensures IsRun(s, ls) && TicksAtMost(ls, 1)
    ensures Piling(After(s, ls)) && Pile(After(s, ls)) == Pile(s) + 1
    ensures After(s, ls).batch == s.batch
  {
    var t := TickStep(s, 1, false);
    TickFields(s, 1, false);
    StepKeepsInv(s, Tick(1, false));
    hide Inv, TickStep, IsRun, After;
    if s.owed + 1 < s.batch {
      Nothing(t);
      RunCons(s, Tick(1, false), []);
      ls := [Tick(1, false)] + [];
    } else {
      GrantRuns(t);
      WholeFacts(t.owed);
      RunKeepsInv(t, [Cpu, Cpu, Cpu]);
      RunCons(s, Tick(1, false), [Cpu, Cpu, Cpu]);
      ls := [Tick(1, false)] + [Cpu, Cpu, Cpu];
    }
  }

  lemma PileBound(s: Sys)
    requires Piling(s) && Roomy(s, 1, false)
    ensures Pile(s) < 2 * MOST
  {
    BacklogPositive(s);
    hide Inv;
  }

  lemma {:induction false} PilesUp(s: Sys) returns (ls: seq<Label>)
    requires Piling(s)
    ensures IsRun(s, ls) && TicksAtMost(ls, 1) && !Lossless(After(s, ls))
    decreases 2 * MOST - Pile(s)
  {
    hide Inv, IsRun, After, Lossless, TickStep, Roomy;
    if Roomy(s, 1, false) {
      PileBound(s);
      hide Piling, Pile;
      var one := PileOne(s);
      var rest := PilesUp(After(s, one));
      RunsCompose(s, one, rest);
      ls := one + rest;
    } else {
      var rest := TickCanLose(s, 1, false);
      RunCons(s, Tick(1, false), rest);
      ls := [Tick(1, false)] + rest;
    }
  }

  /** NO STATIC BOUND.  With a worker no cap and no bound on the ticks, however
      small, keeps every run from losing cycles: nothing but the schedule limits
      what is granted while the worker stands still. */
  lemma NoStaticBound(batch: u32, flushMin: u32, largest: u32)
    requires batch >= RATIO && largest > 0
    ensures var s0 := Init(true, batch, flushMin);
            exists ls :: IsRun(s0, ls) && TicksAtMost(ls, largest) && !Lossless(After(s0, ls))
  {
    var s0 := Init(true, batch, flushMin);
    InitInv(true, batch, flushMin);
    hide Inv, IsRun, After, Lossless;
    var ls := PilesUp(s0);
    assert TicksAtMost(ls, largest);
  }
}
