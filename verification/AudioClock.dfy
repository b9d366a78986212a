/** The audio interface's sample counter (`ai.c`): samples paced exactly in half
    cycles, and an interrupt when the counter takes the programmed value. */
module AudioClock {
  import opened Arithmetic
  import opened Bytes

  const THRESHOLD_48K := 20250   // half cycles a sample
  const THRESHOLD_32K := 30375

  datatype Ai = Ai(playing: bool, fast: bool, mask: bool, latched: bool, irq: bool,
                   counter: u32, timing: u32, rest: nat)

  function Threshold(ai: Ai): (t: nat)
    ensures t > 0
  {
    if ai.fast then THRESHOLD_48K else THRESHOLD_32K
  }

  /** One sample.  The compare is the wrap-safe one of 32-bit words. */
  function OneSample(ai: Ai): Ai {
    var was := (ai.counter + 1) % WORD;
    var now: u32 := (ai.counter + 1) % WORD;
    if (ai.timing - was) % WORD <= (now - was) % WORD then ai.(counter := now, latched := true, irq := ai.mask)
    else ai.(counter := now)
  }

  function Samples(ai: Ai, n: nat): Ai
    decreases n
  {
    if n == 0 then ai else Samples(OneSample(ai), n - 1)
  }

  function Tick(ai: Ai, cycles: nat): Ai {
    if !ai.playing then ai
    else
      var half, t := ai.rest + 2 * cycles, Threshold(ai);
      Samples(ai, half / t).(rest := half % t)
  }

  lemma OneSampleIs(ai: Ai)
    ensures var b := OneSample(ai);
            && b.counter == (ai.counter + 1) % WORD
            && (b.latched <==> ai.latched || b.counter == ai.timing)
            && b.irq == (if b.counter == ai.timing then ai.mask else ai.irq)
            && b == ai.(counter := b.counter, latched := b.latched, irq := b.irq)
  {
  }

  lemma StepWrap(counter: u32, j: int)
    ensures ((counter + 1) % WORD + j) % WORD == (counter + (1 + j)) % WORD
  {
  }

  /** COUNT AND LATCH.  After `n` samples the counter is `n` further, modulo 2^32,
      and the interrupt is latched exactly if it was or the counter took the
      programmed value on the way; only then is the line driven, to the mask. */
  lemma {:induction false} SamplesAre(ai: Ai, n: nat)
    ensures var b := Samples(ai, n);
            && b.counter == (ai.counter + n) % WORD
            && (b.latched <==> ai.latched || exists j: nat :: Hits(ai, j, n))
            && b.irq == (if exists j: nat :: Hits(ai, j, n) then ai.mask else ai.irq)
            && b == ai.(counter := b.counter, latched := b.latched, irq := b.irq)
    decreases n
  {
    if n > 0 {
      var a, b := OneSample(ai), Samples(ai, n);
      OneSampleIs(ai);
      SamplesAre(a, n - 1);
      hide OneSample;
      StepWrap(ai.counter, n - 1);
      HitsShift(ai, a, n, n - 1);
    }
  }

  /** The counter takes the programmed value at sample `j` of `n`. */
  ghost predicate Hits(ai: Ai, j: nat, n: nat) {
    1 <= j <= n && (ai.counter + j) % WORD == ai.timing
  }

  lemma HitsShift(ai: Ai, a: Ai, n: nat, m: nat)
    requires n == m + 1 && a.counter == (ai.counter + 1) % WORD && a.timing == ai.timing
    ensures (exists j: nat :: Hits(ai, j, n)) <==> a.counter == ai.timing || exists j: nat :: Hits(a, j, m)
  {
    if j: nat :| Hits(ai, j, n) {
      StepWrap(ai.counter, j - 1);
      if j > 1 {
        assert Hits(a, j - 1, m);
      }
    }
    if j: nat :| Hits(a, j, m) {
      StepWrap(ai.counter, j);
      assert Hits(ai, j + 1, n);
    }
    if a.counter == ai.timing {
      assert Hits(ai, 1, n);
    }
  }

  lemma {:induction false} SamplesAdd(ai: Ai, m: nat, n: nat)
    ensures Samples(Samples(ai, m), n) == Samples(ai, m + n)
    decreases m
  {
    hide OneSample;
    if m > 0 {
      SamplesAdd(OneSample(ai), m - 1, n);
    }
  }

  lemma {:induction false} SamplesIgnoreRest(ai: Ai, n: nat, rest: nat)
    ensures Samples(ai.(rest := rest), n) == Samples(ai, n).(rest := rest)
    decreases n
  {
    if n > 0 {
      SamplesIgnoreRest(OneSample(ai), n - 1, rest);
      assert OneSample(ai.(rest := rest)) == OneSample(ai).(rest := rest);
    }
  }

  lemma CarryAdds(a: nat, b: nat, t: nat)
    requires t > 0
    ensures a / t + (a % t + b) / t == (a + b) / t && (a % t + b) % t == (a + b) % t
  {
    assert a + b == (a % t + b) + t * (a / t);
    DivModAdd(a % t + b, t, a / t);
  }

  /** ADDITIVITY.  With rate and playback left alone, two ticks are one tick of
      their sum: counter, residue, latch and interrupt line. */
  lemma TickAdds(ai: Ai, a: nat, b: nat)
    ensures Tick(Tick(ai, a), b) == Tick(ai, a + b)
  {
    if ai.playing {
      var t := Threshold(ai);
      var half := ai.rest + 2 * a;
      var n := half / t;
      SamplesAre(ai, n);
      var mid := Samples(ai, n);
      var m := (half % t + 2 * b) / t;
      SamplesIgnoreRest(mid, m, half % t);
      SamplesAdd(ai, n, m);
      CarryAdds(half, 2 * b, t);
      hide Samples, OneSample;
      assert Tick(ai, a) == mid.(rest := half % t);
    }
  }

  /** The whole effect of a tick, in closed form. */
  lemma TickIs(ai: Ai, cycles: nat)
    requires ai.playing
    ensures var b, n := Tick(ai, cycles), (ai.rest + 2 * cycles) / Threshold(ai);
            && b.counter == (ai.counter + n) % WORD
            && (b.latched <==> ai.latched || exists j: nat :: Hits(ai, j, n))
            && b.irq == (if exists j: nat :: Hits(ai, j, n) then ai.mask else ai.irq)
            && Threshold(ai) * n + b.rest == ai.rest + 2 * cycles && b.rest < Threshold(ai)
  {
    SamplesAre(ai, (ai.rest + 2 * cycles) / Threshold(ai));
    hide Samples;
  }

  /** RATE.  A second of the 486 MHz core clock is 48000 samples at the fast rate
      and 32000 at the slow one, and leaves the residue as it was. */
  lemma RateIsExact(ai: Ai)
    requires ai.playing && ai.rest < Threshold(ai)
    ensures Tick(ai, 486_000_000) == Samples(ai, if ai.fast then 48000 else 32000)
  {
    var n := if ai.fast then 48000 else 32000;
    DivModUnique(ai.rest + 2 * 486_000_000, Threshold(ai), n, ai.rest);
    SamplesAre(ai, n);
    hide Samples;
    assert Samples(ai, n).rest == ai.rest;
  }

  class AudioInterface {
    var playing: bool
    var fast: bool
    var mask: bool
    var latched: bool
    var irq: bool
    var counter: u32
    var timing: u32
    var rest: nat

    function View(): Ai
      reads this
    {
      Ai(playing, fast, mask, latched, irq, counter, timing, rest)
    }

    method AdvanceSample()
      modifies `counter, `latched, `irq
      ensures View() == OneSample(old(View()))
    {
      var was: u32 := (counter + 1) % WORD;
      counter := (counter + 1) % WORD;
      if (timing - was) % WORD <= (counter - was) % WORD {
        latched := true;
        irq := latched && mask;
      }
    }

    method TickCycles(cycles: u32)
      modifies `counter, `latched, `irq, `rest
      ensures View() == Tick(old(View()), cycles)
    {
      if !playing {
        return;
      }
      hide OneSample;
      var threshold := if fast then THRESHOLD_48K else THRESHOLD_32K;
      ghost var start := View();
      ghost var half := rest + 2 * cycles;
      rest := rest + cycles * 2;
      ghost var n := 0;
      assert View() == Samples(start, 0).(rest := half);
      while rest >= threshold
        invariant half == threshold * n + rest
        invariant View() == Samples(start, n).(rest := rest)
        decreases rest
      {
        rest := rest - threshold;
        ghost var before := View();
        AdvanceSample();
        SamplesAdd(start, n, 1);
        OneMore(Samples(start, n), before);
        n := n + 1;
      }
      DivModUnique(half, threshold, n, rest);
    }
  }

  lemma OneMore(a: Ai, b: Ai)
    requires b == a.(rest := b.rest)
    ensures OneSample(b) == Samples(a, 1).(rest := b.rest)
  {
    SamplesIgnoreRest(a, 1, b.rest);
    assert Samples(b, 1) == Samples(OneSample(b), 0);
  }
}
