/** What a guest access of the DSP finds: how much the core may still be owed when
    its registers are touched, and when cycles may be spared. */
module DspAccesses {
  import opened Bytes
  import opened DspBatch
  import opened DspBatchProofs

  /** Steps of the two threads, no access and no tick among them. */
  predicate Internal(ls: seq<Label>) {
    forall i :: 0 <= i < |ls| ==> ls[i] == Cpu || ls[i] == Work || ls[i] == GiveUp || ls[i] == Spurious
  }

  /** On the way of an access that flushes, and after it. */
  predicate Flushes(t: Sys, observe: bool) {
    || (t.cpu.Draining? && t.cpu.next == Flushing(observe)) || t.cpu == Residue(observe)
    || (((t.cpu.Observing? && observe) || t.cpu.Idle?) && t.owed < 6)
  }

  /** On the way of an access that does not, and after it. */
  predicate Looks(t: Sys, owed: u32) {
    t.owed == owed && ((t.cpu.Draining? && t.cpu.next.Looking?) || t.cpu.Observing? || t.cpu.Idle?)
  }

  predicate UnderWay(s: Sys, l: Label, t: Sys) {
    match l
    case Write => Flushes(t, true)
    case Read => if s.owed >= s.flushMin then Flushes(t, true) else Looks(t, s.owed)
    case Peek => if s.owed >= s.flushMin then Flushes(t, false) else t.cpu.Idle? && t.owed == s.owed
    case _ => true
  }

  lemma StaysUnderWay(s: Sys, l: Label, t: Sys, m: Label)
    requires UnderWay(s, l, t) && Enabled(t, m) && (m == Cpu || m == Work || m == GiveUp || m == Spurious)
    ensures UnderWay(s, l, Do(t, m))
  {
    WholeFacts(t.owed);
    hide Narrow, Whole;
    if m == Cpu && t.cpu.Draining? {
      DrainStays(t);
    }
  }

  lemma DrainStays(t: Sys)
    requires t.cpu.Draining? && !t.cpu.stage.Asleep?
    ensures var u := DrainStep(t);
            && u.owed == t.owed
            && ((u.cpu.Draining? && u.cpu.next == t.cpu.next) || u.cpu == Drained(t.cpu.next))
  {
    hide Drained;
  }

  lemma {:induction false} RunStaysUnderWay(s: Sys, l: Label, t: Sys, ls: seq<Label>)
    requires UnderWay(s, l, t) && IsRun(t, ls) && Internal(ls)
    ensures UnderWay(s, l, After(t, ls))
    decreases |ls|
  {
    hide UnderWay, Do, Enabled;
    if ls != [] {
      StaysUnderWay(s, l, t, ls[0]);
      RunStaysUnderWay(s, l, Do(t, ls[0]), ls[1..]);
    }
  }

  /** UP TO DATE.  Whatever the two threads do in between, when a store touches the
      core's registers fewer than six cycles are owed to it, and when a read does,
      fewer than six or than the flush minimum; a look at the interrupt registers
      touches no core state, and leaves no more owed than that either. */
  lemma AccessesFind(s: Sys, l: Label, ls: seq<Label>)
    requires s.cpu.Idle? && (l == Write || l == Read || l == Peek)
    requires IsRun(Do(s, l), ls) && Internal(ls)
    ensures var t := After(Do(s, l), ls);
            && (t.cpu.Observing? ==> l != Peek)
            && (t.cpu.Observing? || t.cpu.Idle? ==>
                  t.owed < 6 || (l != Write && t.owed == s.owed < s.flushMin))
  {
    assert UnderWay(s, l, Do(s, l));
    hide Do, IsRun, After;
    RunStaysUnderWay(s, l, Do(s, l), ls);
  }

  // ---- spared cycles ------------------------------------------------------

  /** Cycles are spared by one step only: the CPU's, at the cap, told that the core
      is halted, with every grant consumed; and then all whole ones are. */
  lemma SparedExactly(s: Sys, l: Label)
    requires Enabled(s, l)
    ensures Do(s, l).discarded
            == s.discarded
               + if l == Cpu && s.cpu == Capped(true) && s.consumed == s.granted then s.owed - s.owed % 6 else 0
  {
    WholeFacts(s.owed);
    hide Narrow;
  }

  predicate NeverHalted(ls: seq<Label>) {
    forall i :: 0 <= i < |ls| ==> ls[i].Tick? ==> !ls[i].halted
  }

  lemma StepSparesNothing(s: Sys, l: Label)
    requires Enabled(s, l) && s.cpu != Capped(true) && (l.Tick? ==> !l.halted)
    ensures Do(s, l).cpu != Capped(true) && Do(s, l).discarded == s.discarded
  {
    SparedExactly(s, l);
    hide Narrow, Whole;
  }

  /** A core that is never halted is spared nothing. */
  lemma {:induction false} RunningCoreIsSparedNothing(s: Sys, ls: seq<Label>)
    requires s.cpu != Capped(true) && IsRun(s, ls) && NeverHalted(ls)
    ensures After(s, ls).discarded == s.discarded
    decreases |ls|
  {
    hide Do, Enabled;
    if ls != [] {
      StepSparesNothing(s, ls[0]);
      RunningCoreIsSparedNothing(Do(s, ls[0]), ls[1..]);
    }
  }
}
