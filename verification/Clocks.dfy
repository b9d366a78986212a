/** Clocks that carry remainders: the per-block charge of the dispatch loop, the
    decrementer, and the real-time clock. */
module Clocks {
  import opened Arithmetic
  import opened Bytes

  const DWORD := 0x1_0000_0000_0000_0000
  const HALF := 0x8000_0000

  type u64 = x: int | 0 <= x < 0x1_0000_0000_0000_0000

  // ---- the dispatch loop's charge -----------------------------------------

  const RATIO := 12           // core cycles per time-base tick
  const TICKS_PER_BLOCK := 8
  const CYCLES_PER_BLOCK := 96

  datatype Clock = Clock(prev: u64, timebase: u64, tbRest: u64, dspRest: u64, device: u64)

  /** What a block is charged: time-base ticks, DSP and AI cycles, each 32 bits
      wide, and whether they come from the block's own cycle count. */
  datatype Charge = Charge(clock: Clock, derived: bool, tb: u32, dsp: u32, ai: u32)

  function Delta(c: Clock, now: u64): u64 {
    (now - c.prev) % DWORD
  }

  datatype Parts = Parts(whole: u64, rest: u64)

  /** Quotient and remainder of a 64-bit sum. */
  function Divide(n: nat): Parts {
    Parts(n % DWORD / RATIO, n % DWORD % RATIO)
  }

  function Scaled(delta: nat, ratio: nat): nat {
    delta * ratio
  }

  function ChargeBlock(c: Clock, now: u64, dspPerBlock: u32, uniform: bool): Charge {
    var delta := Delta(c, now);
    if delta == 0 || uniform then
      Charge(c.(prev := now, timebase := (c.timebase + TICKS_PER_BLOCK) % DWORD, device := (c.device + CYCLES_PER_BLOCK) % DWORD),
             false, TICKS_PER_BLOCK, dspPerBlock, 0)
    else
      var tb, dsp := Divide(delta + c.tbRest), Divide(Scaled(delta, dspPerBlock) + c.dspRest);
      Charge(Clock(now, (c.timebase + tb.whole) % DWORD, tb.rest, dsp.rest, (c.device + delta) % DWORD),
             true, tb.whole % WORD, dsp.whole % WORD, delta % WORD)
  }

  /** A block that counts no cycles, and any block in the uniform mode, is charged
      8 ticks of the time base, which are 96 core cycles, and the DSP's constant;
      the remainders stand. */
  lemma UniformCharge(c: Clock, now: u64, dspPerBlock: u32, uniform: bool)
    requires uniform || now == c.prev
    ensures var r := ChargeBlock(c, now, dspPerBlock, uniform);
            && !r.derived && r.tb == 8 && r.dsp == dspPerBlock && r.ai == 0
            && r.clock == Clock(now, (c.timebase + 8) % DWORD, c.tbRest, c.dspRest, (c.device + 12 * 8) % DWORD)
  {
  }

  /** The charges fit 32 bits. */
  predicate Fits(c: Clock, now: u64, dspPerBlock: u32) {
    && Delta(c, now) + c.tbRest < WORD * RATIO
    && Scaled(Delta(c, now), dspPerBlock) + c.dspRest < WORD * RATIO
  }

  /** What the quotient leaves the remainder carries; truncating the quotient to
      32 bits loses nothing exactly when it fits. */
  lemma DivideExactly(n: nat)
    requires n < DWORD
    ensures RATIO * (Divide(n).whole % WORD) + Divide(n).rest == n <==> n < WORD * RATIO
    ensures n < WORD * RATIO ==> Divide(n).whole % WORD == Divide(n).whole
  {
  }

  /** EXACT CHARGE.  Nothing is lost in a block whose charges fit. */
  lemma ChargeIsExact(c: Clock, now: u64, dspPerBlock: u32)
    requires Delta(c, now) > 0 && Fits(c, now, dspPerBlock)
    ensures var r := ChargeBlock(c, now, dspPerBlock, false);
            && r.derived && RATIO * r.tb + r.clock.tbRest == Delta(c, now) + c.tbRest
            && RATIO * r.dsp + r.clock.dspRest == Scaled(Delta(c, now), dspPerBlock) + c.dspRest
            && r.clock.prev == now
  {
    DivideExactly(Delta(c, now) + c.tbRest);
    DivideExactly(Scaled(Delta(c, now), dspPerBlock) + c.dspRest);
    hide Divide, Delta, Scaled;
  }

  /** What a block owes the time base and the DSP, in twelfths of a tick and of a
      cycle. */
  function TbOwed(c: Clock, now: u64): nat {
    Delta(c, now) + c.tbRest
  }

  function DspOwed(c: Clock, now: u64, dspPerBlock: u32): nat {
    Scaled(Delta(c, now), dspPerBlock) + c.dspRest
  }

  /** Ticks the 64-bit time base advances by in a block. */
  function Whole(c: Clock, now: u64): u64 {
    Divide(TbOwed(c, now)).whole
  }

  /** The time base and the device clock advance by all of a block, however long
      it was; only what is handed on is cut to 32 bits. */
  lemma ClocksAdvance(c: Clock, now: u64, dspPerBlock: u32)
    requires Delta(c, now) > 0
    ensures var r := ChargeBlock(c, now, dspPerBlock, false);
            && r.derived && r.clock.prev == now
            && r.clock.timebase == (c.timebase + Whole(c, now)) % DWORD && r.tb == Whole(c, now) % WORD
            && r.clock.device == (c.device + Delta(c, now)) % DWORD && r.ai == Delta(c, now) % WORD
            && RATIO * Whole(c, now) + r.clock.tbRest == TbOwed(c, now) % DWORD
  {
    DivideWhole(TbOwed(c, now));
    hide Divide, Delta, Scaled;
  }

  lemma DivideWhole(n: nat)
    ensures RATIO * Divide(n).whole + Divide(n).rest == n % DWORD
  {
  }

  /** EXACT CONDITION.  A DSP charge is exact if and only if it fits 32 bits. */
  lemma DspChargeExactly(c: Clock, now: u64, dspPerBlock: u32)
    requires Delta(c, now) > 0
    ensures var r, owed := ChargeBlock(c, now, dspPerBlock, false), DspOwed(c, now, dspPerBlock);
            && RATIO * r.dsp + r.clock.dspRest <= owed
            && (RATIO * r.dsp + r.clock.dspRest == owed <==> owed < WORD * RATIO)
  {
    CutExactly(DspOwed(c, now, dspPerBlock));
    hide Divide, Delta, Scaled;
  }

  /** The same for the ticks handed to the decrementer. */
  lemma TickChargeExactly(c: Clock, now: u64, dspPerBlock: u32)
    requires Delta(c, now) > 0
    ensures var r, owed := ChargeBlock(c, now, dspPerBlock, false), TbOwed(c, now);
            && RATIO * r.tb + r.clock.tbRest <= owed
            && (RATIO * r.tb + r.clock.tbRest == owed <==> owed < WORD * RATIO)
  {
    CutExactly(TbOwed(c, now));
    hide Divide, Delta, Scaled;
  }

  /** A 64-bit sum divided and the quotient cut to 32 bits. */
  lemma CutExactly(n: nat)
    ensures var kept := RATIO * (Divide(n).whole % WORD) + Divide(n).rest;
            kept <= n && (kept == n <==> n < WORD * RATIO)
  {
    if n < DWORD {
      SmallSum(n);
      DivideExactly(n);
      CutBelow(Divide(n).whole, Divide(n).rest);
      DivideWhole(n);
    } else {
      DivideWhole(n);
      CutBelow(Divide(n).whole, Divide(n).rest);
      SumWraps(n);
    }
  }

  lemma SmallSum(n: nat)
    requires n < DWORD
    ensures n % DWORD == n
  {
  }

  lemma SumWraps(n: nat)
    ensures n % DWORD <= n && (n % DWORD == n <==> n < DWORD)
  {
  }

  lemma CutBelow(whole: nat, rest: nat)
    ensures RATIO * (whole % WORD) + rest <= RATIO * whole + rest
  {
  }

  /** A block of 2^32 core cycles at the default ratio: the DSP is charged
      nothing and nothing is carried, while the time base gets it all. */
  lemma LongBlockStarvesDsp()
    ensures var r := ChargeBlock(Clock(0, 0, 0, 0, 0), 0x1_0000_0000, RATIO, false);
            r.dsp == 0 && r.clock.dspRest == 0 && r.ai == 0 && RATIO * r.clock.timebase + r.clock.tbRest == 0x1_0000_0000
  {
    LongBlockParts(0x1_0000_0000);
    hide Divide, Scaled, Delta;
  }

  lemma LongBlockParts(n: nat)
    requires n == 0x1_0000_0000
    ensures Delta(Clock(0, 0, 0, 0, 0), n) == n && Scaled(n, RATIO) == 12 * n
    ensures Divide(12 * n) == Parts(n, 0) && Divide(n) == Parts(0x1555_5555, 4)
  {
    DivModUnique(12 * n, 12, n, 0);
  }

  // ---- runs of blocks -----------------------------------------------------

  function After(c: Clock, nows: seq<u64>, dspPerBlock: u32): Clock {
    if nows == [] then c else ChargeBlock(After(c, nows[..|nows| - 1], dspPerBlock), nows[|nows| - 1], dspPerBlock, false).clock
  }

  function Last(c: Clock, nows: seq<u64>, dspPerBlock: u32): Charge
    requires nows != []
  {
    ChargeBlock(After(c, nows[..|nows| - 1], dspPerBlock), nows[|nows| - 1], dspPerBlock, false)
  }

  /** Over a run of blocks: core cycles retired, ticks of the time base, ticks
      handed to the decrementer, DSP cycles handed on. */
  function Elapsed(c: Clock, nows: seq<u64>, dspPerBlock: u32): nat {
    if nows == [] then 0
    else Elapsed(c, nows[..|nows| - 1], dspPerBlock) + Delta(After(c, nows[..|nows| - 1], dspPerBlock), nows[|nows| - 1])
  }

  function WholeTotal(c: Clock, nows: seq<u64>, dspPerBlock: u32): nat {
    if nows == [] then 0
    else WholeTotal(c, nows[..|nows| - 1], dspPerBlock) + Whole(After(c, nows[..|nows| - 1], dspPerBlock), nows[|nows| - 1])
  }

  function TbTotal(c: Clock, nows: seq<u64>, dspPerBlock: u32): nat {
    if nows == [] then 0 else TbTotal(c, nows[..|nows| - 1], dspPerBlock) + Last(c, nows, dspPerBlock).tb
  }

  function DspTotal(c: Clock, nows: seq<u64>, dspPerBlock: u32): nat {
    if nows == [] then 0 else DspTotal(c, nows[..|nows| - 1], dspPerBlock) + Last(c, nows, dspPerBlock).dsp
  }

  /** Every block retires something, as a block of counted code does. */
  predicate Retires(c: Clock, nows: seq<u64>, dspPerBlock: u32) {
    nows == [] ||
    (Retires(c, nows[..|nows| - 1], dspPerBlock)
     && Delta(After(c, nows[..|nows| - 1], dspPerBlock), nows[|nows| - 1]) > 0)
  }

  /** What every block owes the time base is below `limit`. */
  predicate TbBelow(c: Clock, nows: seq<u64>, dspPerBlock: u32, limit: nat) {
    nows == [] ||
    (TbBelow(c, nows[..|nows| - 1], dspPerBlock, limit)
     && TbOwed(After(c, nows[..|nows| - 1], dspPerBlock), nows[|nows| - 1]) < limit)
  }

  predicate DspBelow(c: Clock, nows: seq<u64>, dspPerBlock: u32, limit: nat) {
    nows == [] ||
    (DspBelow(c, nows[..|nows| - 1], dspPerBlock, limit)
     && DspOwed(After(c, nows[..|nows| - 1], dspPerBlock), nows[|nows| - 1], dspPerBlock) < limit)
  }

  /** THE TIME BASE OVER ANY RUN.  It advances by the ticks counted, and these,
      times twelve, plus the remainder, are the core cycles retired if and only
      if no 64-bit sum wraps. */
  lemma {:induction false} TimeBaseIsExact(c: Clock, nows: seq<u64>, dspPerBlock: u32)
    requires Retires(c, nows, dspPerBlock)
    ensures var d := After(c, nows, dspPerBlock);
            var kept, owed := RATIO * WholeTotal(c, nows, dspPerBlock) + d.tbRest, Elapsed(c, nows, dspPerBlock) + c.tbRest;
            && d.timebase == (c.timebase + WholeTotal(c, nows, dspPerBlock)) % DWORD
            && d.device == (c.device + Elapsed(c, nows, dspPerBlock)) % DWORD
            && kept <= owed && (kept == owed <==> TbBelow(c, nows, dspPerBlock, DWORD))
  {
    hide ChargeBlock, Delta, Whole;
    if nows == [] {
      SmallSum(c.timebase);
      SmallSum(c.device);
    } else {
      var z, now := nows[..|nows| - 1], nows[|nows| - 1];
      TimeBaseIsExact(c, z, dspPerBlock);
      var b := After(c, z, dspPerBlock);
      ClocksAdvance(b, now, dspPerBlock);
      SumWraps(TbOwed(b, now));
      Wrapped(c.timebase, WholeTotal(c, z, dspPerBlock), Whole(b, now));
      Wrapped(c.device, Elapsed(c, z, dspPerBlock), Delta(b, now));
    }
  }

  lemma Wrapped(base: nat, a: nat, b: nat)
    ensures ((base + a) % DWORD + b) % DWORD == (base + (a + b)) % DWORD
  {
    var q := (base + a) / DWORD;
    assert base + a == DWORD * q + (base + a) % DWORD;
    DivModAdd((base + a) % DWORD + b, DWORD, q);
  }

  /** THE DSP AND THE DECREMENTER OVER ANY RUN.  What they are handed, times
      twelve, plus the remainder, never exceeds what was retired, scaled, and is
      all of it if and only if no block's charge passes 32 bits. */
  lemma {:induction false} RunLosesNothing(c: Clock, nows: seq<u64>, dspPerBlock: u32)
    requires Retires(c, nows, dspPerBlock)
    ensures var d := After(c, nows, dspPerBlock);
            var elapsed := Elapsed(c, nows, dspPerBlock);
            var dsp, dspOwed := RATIO * DspTotal(c, nows, dspPerBlock) + d.dspRest, Scaled(elapsed, dspPerBlock) + c.dspRest;
            var ticks, ticksOwed := RATIO * TbTotal(c, nows, dspPerBlock) + d.tbRest, elapsed + c.tbRest;
            && dsp <= dspOwed && (dsp == dspOwed <==> DspBelow(c, nows, dspPerBlock, WORD * RATIO))
            && ticks <= ticksOwed && (ticks == ticksOwed <==> TbBelow(c, nows, dspPerBlock, WORD * RATIO))
  {
    hide ChargeBlock, Delta, Scaled;
    if nows == [] {
      NothingScaled(dspPerBlock);
    } else {
      var z, now := nows[..|nows| - 1], nows[|nows| - 1];
      RunLosesNothing(c, z, dspPerBlock);
      var b := After(c, z, dspPerBlock);
      DspChargeExactly(b, now, dspPerBlock);
      TickChargeExactly(b, now, dspPerBlock);
      ScaledAdds(Elapsed(c, z, dspPerBlock), Delta(b, now), dspPerBlock);
    }
  }

  lemma NothingScaled(ratio: nat)
    ensures Scaled(0, ratio) == 0
  {
  }

  lemma ScaledAdds(a: nat, b: nat, ratio: nat)
    ensures Scaled(a + b, ratio) == Scaled(a, ratio) + Scaled(b, ratio)
  {
  }

  /** While the cycle counter only grows, what has elapsed is what it grew by. */
  lemma {:induction false} ElapsedIs(c: Clock, nows: seq<u64>, dspPerBlock: u32)
    requires forall i, j :: 0 <= i < j < |nows| ==> nows[i] <= nows[j]
    requires nows != [] ==> c.prev <= nows[0]
    ensures After(c, nows, dspPerBlock).prev == c.prev + Elapsed(c, nows, dspPerBlock)
    ensures After(c, nows, dspPerBlock).prev == if nows == [] then c.prev else nows[|nows| - 1]
  {
    if nows != [] {
      var z, now := nows[..|nows| - 1], nows[|nows| - 1];
      ElapsedIs(c, z, dspPerBlock);
      var b := After(c, z, dspPerBlock);
      assert b.prev <= now by {
        if z != [] {
          assert z[|z| - 1] == nows[|z| - 1] <= nows[|z|];
        }
      }
      PrevIsNow(b, now, dspPerBlock);
      hide ChargeBlock, Delta;
    }
  }

  lemma PrevIsNow(c: Clock, now: u64, dspPerBlock: u32)
    ensures ChargeBlock(c, now, dspPerBlock, false).clock.prev == now
    ensures c.prev <= now ==> Delta(c, now) == now - c.prev
  {
    hide Divide, Scaled;
  }

  // ---- the decrementer ----------------------------------------------------

  datatype Dec = Dec(value: u32, pending: bool)

  /** Count down; a passage from non-negative to negative is an interrupt. */
  function DecTick(d: Dec, ticks: u32): Dec {
    if ticks == 0 then d
    else
      var next: u32 := (d.value - ticks) % WORD;
      Dec(next, d.pending || (d.value < HALF && next >= HALF))
  }

  /** A guest store; a non-negative value withdraws the interrupt. */
  function DecStore(d: Dec, value: u32): Dec {
    Dec(value, d.pending && value >= HALF)
  }

  /** The count passes from non-negative to negative within `ticks`: it gets
      below zero and not so far that it comes out non-negative again. */
  predicate Passes(value: u32, ticks: u32) {
    value < HALF && value < ticks <= value + HALF
  }

  /** An interrupt is newly pending exactly when the count passes zero. */
  lemma DecPassesZero(d: Dec, ticks: u32)
    ensures DecTick(d, ticks).pending <==> d.pending || Passes(d.value, ticks)
    ensures (DecTick(d, ticks).value + ticks) % WORD == d.value
  {
  }

  /** A tick of `a + b` at once misses the interrupt that one of its parts
      raises: the count passes zero in the first and is carried on past -2^31,
      or it starts negative, is carried past -2^31 by the first part, and passes
      zero in the second. */
  predicate MissedAtOnce(d: Dec, a: u32, b: u32) {
    && !d.pending && a > 0 && b > 0
    && (if d.value < HALF then d.value < a <= d.value + HALF < a + b
        else d.value - HALF < a <= d.value < a + b)
  }

  /** EXACT CONDITION, per state.  A tick may be split after `a` if and only if
      no interrupt is missed by taking it at once. */
  lemma DecSplits(d: Dec, a: u32, b: u32)
    requires a + b < WORD
    ensures DecTick(DecTick(d, a), b) == DecTick(d, a + b) <==> !MissedAtOnce(d, a, b)
    ensures DecTick(DecTick(d, a), b).value == DecTick(d, a + b).value
    ensures DecTick(d, a + b).pending ==> DecTick(DecTick(d, a), b).pending
  {
    DecPassesZero(d, a);
    DecPassesZero(DecTick(d, a), b);
    DecPassesZero(d, a + b);
  }

  /** EXACT CONDITION, over all states.  Two ticks may be taken as one whatever
      the decrementer holds if and only if one of them is 0 or they total at
      most 2^31. */
  lemma DecSplitBound(a: u32, b: u32)
    requires a + b < WORD
    ensures (forall d: Dec :: DecTick(DecTick(d, a), b) == DecTick(d, a + b)) <==> a == 0 || b == 0 || a + b <= HALF
  {
    forall d: Dec
      ensures DecTick(DecTick(d, a), b) == DecTick(d, a + b) <==> !MissedAtOnce(d, a, b)
    {
      DecSplits(d, a, b);
    }
    if a > 0 && b > 0 && a + b > HALF {
      var d := Dec(if a <= HALF then 0 else a - HALF, false);
      assert MissedAtOnce(d, a, b);
      assert DecTick(DecTick(d, a), b) != DecTick(d, a + b);
    }
  }

  // ---- the real-time clock ------------------------------------------------

  const HZ := 486_000_000

  datatype Rtc = Rtc(counter: u32, anchor: u64, running: bool)

  datatype Reading = Reading(rtc: Rtc, value: u32)

  function RtcRead(r: Rtc, now: u64): Reading {
    if !r.running then Reading(r, r.counter)
    else if now < r.anchor then Reading(r.(anchor := now), r.counter)
    else
      var seconds := (now - r.anchor) / HZ;
      if seconds == 0 then Reading(r, r.counter)
      else
        var counter := (r.counter + seconds % WORD) % WORD;
        Reading(r.(counter := counter, anchor := r.anchor + seconds * HZ), counter)
  }

  /** A guest store; a running clock counts on from it. */
  function RtcStore(r: Rtc, value: u32, now: u64): Rtc {
    Rtc(value, if r.running then now else r.anchor, r.running)
  }

  /** A read returns the seconds since the anchor, modulo 2^32. */
  lemma RtcValue(r: Rtc, now: u64)
    requires r.running && r.anchor <= now
    ensures RtcRead(r, now).value == (r.counter + (now - r.anchor) / HZ) % WORD
    ensures var s := RtcRead(r, now).rtc; s.running && s.anchor <= now
  {
  }

  /** A clock that stands reads its value; one whose cycle count went back counts
      on from there, without a step. */
  lemma RtcStands(r: Rtc, now: u64)
    ensures !r.running ==> RtcRead(r, now) == Reading(r, r.counter)
    ensures r.running && now < r.anchor ==> RtcRead(r, now) == Reading(Rtc(r.counter, now, true), r.counter)
  {
  }

  lemma SplitSeconds(a: nat, s: nat)
    requires s * HZ <= a
    ensures a / HZ == s + (a - s * HZ) / HZ
  {
  }

  /** A read moves whole seconds from the anchor to the counter. */
  lemma RtcReadMoves(r: Rtc, t: u64)
    requires r.running && r.anchor <= t
    ensures var s, seconds := RtcRead(r, t).rtc, (t - r.anchor) / HZ;
            s.running && s.anchor == r.anchor + seconds * HZ <= t && s.counter == (r.counter + seconds) % WORD
  {
  }

  lemma WrapAdds(counter: u32, a: nat, b: nat)
    ensures ((counter + a) % WORD + b) % WORD == (counter + (a + b)) % WORD
  {
  }

  /** Reading earlier leaves a later reading as it would have been. */
  lemma RtcReadIsTransparent(r: Rtc, t: u64, now: u64)
    requires r.running && r.anchor <= t <= now
    ensures RtcRead(RtcRead(r, t).rtc, now).value == RtcRead(r, now).value
    ensures RtcRead(r, t).rtc.running && RtcRead(r, t).rtc.anchor <= t
  {
    hide RtcRead;
    var s, seconds := RtcRead(r, t).rtc, (t - r.anchor) / HZ;
    RtcReadMoves(r, t);
    RtcValue(r, now);
    RtcValue(s, now);
    SplitSeconds(now - r.anchor, seconds);
    WrapAdds(r.counter, seconds, (now - s.anchor) / HZ);
  }

  function RtcReads(r: Rtc, times: seq<u64>): Rtc {
    if times == [] then r else RtcRead(RtcReads(r, times[..|times| - 1]), times[|times| - 1]).rtc
  }

  ghost predicate Ascending(from: u64, times: seq<u64>, to: u64) {
    && (forall i :: 0 <= i < |times| ==> from <= times[i] <= to)
    && (forall i, j :: 0 <= i < j < |times| ==> times[i] <= times[j])
  }

  /** ANY NUMBER of earlier reads changes nothing of a later one. */
  lemma {:induction false} RtcReadsAreTransparent(r: Rtc, times: seq<u64>, now: u64)
    requires r.running && r.anchor <= now && Ascending(r.anchor, times, now)
    ensures RtcRead(RtcReads(r, times), now).value == RtcRead(r, now).value
    ensures var s := RtcReads(r, times); s.running && (times == [] || s.anchor <= times[|times| - 1]) && (times == [] ==> s == r)
  {
    if times != [] {
      var z, t := times[..|times| - 1], times[|times| - 1];
      RtcReadsAreTransparent(r, z, now);
      var s := RtcReads(r, z);
      assert s.anchor <= t by {
        if z != [] {
          assert z[|z| - 1] == times[|z| - 1] <= times[|z|];
        }
      }
      RtcReadIsTransparent(s, t, now);
    }
  }
}
