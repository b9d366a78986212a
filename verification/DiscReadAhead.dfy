/** The drive's read-ahead window (`di_schedule_read_cycles`).  The seek,
    rotation and transfer times, which the runtime computes in floating point,
    are arbitrary functions here. */
module DiscReadAhead {
  import opened Arithmetic

  const BLOCK := 0x8000              // ECC block
  const BUFFER := 0x10_0000          // streaming buffer
  const BACK_SEEK := 2 * BLOCK
  const CLOCK := 486_000_000
  const TRANSFER_RATE := 32 * 1024 * 1024
  const READ_LATENCY := 600 * 486

  function AlignDown(v: nat): (r: nat)
    ensures r % BLOCK == 0 && r <= v < r + BLOCK
  {
    v - v % BLOCK
  }

  function AlignUp(v: nat): (r: nat)
    ensures r % BLOCK == 0 && v <= r < v + BLOCK
  {
    if v % BLOCK != 0 then v + (BLOCK - v % BLOCK) else v
  }

  /** Offsets and times between which the drive reads ahead; equal times mean
      that there is no window. */
  datatype Window = Window(start: nat, end: nat, startTime: nat, endTime: nat)

  predicate Active(w: Window) {
    w.startTime != w.endTime
  }

  predicate Sound(w: Window) {
    && w.startTime <= w.endTime
    && (Active(w) ==>
          w.start % BLOCK == 0 && w.end % BLOCK == 0 && w.end - BUFFER <= w.start < w.end)
  }

  /** What of the disc is buffered at a moment. */
  datatype Available = Available(from: nat, to: nat)

  function Lag(n: nat): nat {
    if n > BUFFER then n - BUFFER else 0
  }

  function Share(elapsed: nat, span: nat, duration: nat): nat
    requires duration > 0
  {
    elapsed * span / duration
  }

  /** How far the drive has got, in whole blocks. */
  function Filled(w: Window, now: nat): nat
    requires Sound(w) && Active(w)
  {
    if now >= w.endTime then w.end
    else
      var elapsed := if now > w.startTime then now - w.startTime else 0;
      w.start + AlignDown(Share(elapsed, w.end - w.start, w.endTime - w.startTime))
  }

  lemma ShareBound(elapsed: nat, span: nat, duration: nat)
    requires elapsed < duration
    ensures Share(elapsed, span, duration) <= span
  {
    var q := elapsed * span / duration;
    assert elapsed * span == duration * q + elapsed * span % duration;
    assert elapsed * span <= duration * span by {
      assert (duration - elapsed) * span >= 0;
    }
    MulStep(duration, q - span);
    assert duration * (q - span) == duration * q - duration * span;
  }

  /** What is filled lies within the window, on a block boundary. */
  lemma FilledBounds(w: Window, now: nat)
    requires Sound(w) && Active(w)
    ensures w.start <= Filled(w, now) <= w.end && Filled(w, now) % BLOCK == 0
  {
    if now < w.endTime {
      var elapsed := if now > w.startTime then now - w.startTime else 0;
      ShareBound(elapsed, w.end - w.start, w.endTime - w.startTime);
      hide Share;
      AlignedSum(w.start, AlignDown(Share(elapsed, w.end - w.start, w.endTime - w.startTime)));
    }
  }

  lemma AlignedSum(a: nat, b: nat)
    requires a % BLOCK == 0 && b % BLOCK == 0
    ensures (a + b) % BLOCK == 0
  {
  }

  /** Block behind the last one a read of `length` bytes at `offset` touches. */
  function LastBlock(offset: nat, length: nat): (r: nat)
    ensures AlignDown(offset) < r
  {
    if length == 0 then AlignDown(offset) + BLOCK else AlignUp(offset + length)
  }

  /** It is the first block boundary at or behind the end of the read. */
  lemma LastBlockIs(offset: nat, length: nat)
    requires length > 0
    ensures var r := LastBlock(offset, length); r % 0x8000 == 0 && r - 0x8000 < offset + length <= r
  {
  }

  lemma ShareGrows(a: nat, b: nat, span: nat, duration: nat)
    requires a <= b && duration > 0
    ensures Share(a, span, duration) <= Share(b, span, duration)
  {
    var x, y := a * span, b * span;
    assert y - x == (b - a) * span;
    assert (b - a) * span >= 0;
    var p, q := x / duration, y / duration;
    assert x == duration * p + x % duration && y == duration * q + y % duration;
    assert duration * p - duration * q == duration * (p - q);
    MulStep(duration, p - q);
  }

  lemma AlignGrows(a: nat, b: nat)
    requires a <= b
    ensures AlignDown(a) <= AlignDown(b)
  {
  }

  /** READING AHEAD.  Nothing of the window is there before its time, all of it
      from its end time on, and what is there only grows. */
  lemma FilledGrows(w: Window, now: nat, later: nat)
    requires Sound(w) && Active(w) && now <= later
    ensures now <= w.startTime ==> Filled(w, now) == w.start
    ensures now >= w.endTime ==> Filled(w, now) == w.end
    ensures Filled(w, now) <= Filled(w, later)
  {
    FilledBounds(w, now);
    FilledBounds(w, later);
    var span, duration := w.end - w.start, w.endTime - w.startTime;
    if now <= w.startTime {
      NoShare(span, duration);
    }
    if later < w.endTime {
      var a, b := if now > w.startTime then now - w.startTime else 0, if later > w.startTime then later - w.startTime else 0;
      ShareGrows(a, b, span, duration);
      hide Share;
      AlignGrows(Share(a, span, duration), Share(b, span, duration));
    }
  }

  lemma NoShare(span: nat, duration: nat)
    requires duration > 0
    ensures Share(0, span, duration) == 0
  {
  }

  /** The buffered range a read that starts in block `first` can use: none if it
      starts before it. */
  function Usable(w: Window, now: nat, first: nat): Available
    requires Sound(w)
  {
    if !Active(w) || first < Lag(w.end) then Available(0, 0) else Available(Lag(w.end), Filled(w, now))
  }

  /** Where the head waits before the read. */
  function Head(w: Window, now: nat): nat
    requires Sound(w)
  {
    if Active(w) then Filled(w, now) else 0
  }

  predicate Seeks(w: Window, now: nat, first: nat)
    requires Sound(w)
  {
    var a := Usable(w, now, first);
    !(a.from <= first < a.to) && first != Head(w, now)
  }

  /** The range that is buffered is never longer than the buffer. */
  lemma UsableBounds(w: Window, now: nat, first: nat)
    requires Sound(w) && first % BLOCK == 0
    ensures var a := Usable(w, now, first);
            && a.from <= a.to <= a.from + BUFFER && a.from <= first && a.to % BLOCK == 0 && a.from % BLOCK == 0
            && (a.to != 0 ==> a.to == Head(w, now))
  {
    if Active(w) {
      FilledBounds(w, now);
      LagAligned(w.end);
    }
  }

  lemma LagAligned(n: nat)
    requires n % BLOCK == 0
    ensures Lag(n) % BLOCK == 0
  {
  }

  predicate Keeps(a: Available, last: nat)
    requires a.from <= last
  {
    last - a.from <= BACK_SEEK && a.from != a.to
  }

  class Scheduler {
    const seekTime: (nat, nat) -> nat
    const rotation: (nat, nat) -> nat
    const readTime: (nat, nat) -> nat
    var window: Window
    var now: nat

    constructor (seekTime: (nat, nat) -> nat, rotation: (nat, nat) -> nat, readTime: (nat, nat) -> nat)
      ensures Sound(window) && !Active(window) && now == 0
    {
      this.seekTime, this.rotation, this.readTime := seekTime, rotation, readTime;
      window := Window(0, 0, 0, 0);
      now := 0;
    }

    method Forget()
      modifies `window
      ensures Sound(window) && !Active(window)
    {
      window := Window(0, 0, 0, 0);
    }

    /** Time for one block, and whether the head had to seek to it. */
    method ReadBlock(buffered: bool, head: nat, block: nat, chunk: nat, before: nat) returns (ticks: nat, seek: bool)
      ensures ticks >= before && (seek <==> !buffered && block != head)
    {
      ticks, seek := before, false;
      if buffered {
        ticks := ticks + chunk * CLOCK / TRANSFER_RATE;
      } else if block != head {
        seek := true;
        ticks := ticks + seekTime(head, block);
        ticks := ticks + rotation(block, now + ticks);
      } else {
        ticks := ticks + readTime(block, BLOCK);
      }
    }

    /** Walk the blocks of a read.  It seeks exactly if its first block is neither
        buffered nor under the head: later ones always are one or the other. */
    method Walk(a: Available, head0: nat, offset0: nat, length0: nat) returns (ticks: nat, seek: bool, last: nat)
      requires a.to % BLOCK == 0 && a.from <= AlignDown(offset0)
      requires a.to != 0 ==> a.to == head0
      ensures last == LastBlock(offset0, length0) && ticks >= READ_LATENCY
      ensures seek <==> !(a.from <= AlignDown(offset0) < a.to) && AlignDown(offset0) != head0
    {
      hide AlignUp, AlignDown, LastBlock;
      ghost var first := AlignDown(offset0);
      ghost var seeks := !(a.from <= first < a.to) && first != head0;
      var offset, length, block, head := offset0, length0, AlignDown(offset0), head0;
      ticks, seek := READ_LATENCY, false;
      while true
        invariant block == AlignDown(offset) && first <= block && ticks >= READ_LATENCY
        invariant offset + length == offset0 + length0 && (offset == offset0 || length > 0)
        invariant block == first ==> head == head0 && !seek
        invariant block > first ==>
                    && (seek <==> seeks)
                    && ((first < a.to && block < a.to && head == a.to) || (a.to <= block && head == block))
        decreases length
      {
        BoundaryIs(offset);
        var boundary := AlignUp(offset + 1);
        var chunk := boundary - offset;
        if chunk > length {
          chunk := length;
        }
        var buffered := a.from <= block < a.to;
        var sought;
        ticks, sought := ReadBlock(buffered, head, block, chunk, ticks);
        seek := seek || sought;
        if !buffered {
          head := block + BLOCK;
        }
        StepAligned(block, a.to);
        if length == chunk {
          EndsAt(offset0, length0, offset, length);
          last := block + BLOCK;
          return;
        }
        offset, length := offset + chunk, length - chunk;
        block := block + BLOCK;
        StartsBlock(offset);
      }
    }

    /** Schedule a read: its duration, and the window it leaves. */
    method Schedule(offset: nat, length: nat) returns (ticks: nat)
      requires Sound(window)
      modifies `window
      ensures ticks > 0 && Sound(window)
      ensures var a, last := Usable(old(window), now, AlignDown(offset)), LastBlock(offset, length);
              && a.from <= last && a.to - a.from <= BUFFER
              && (Keeps(a, last) ==> window == old(window))
              && (!Keeps(a, last) ==>
                    && window.start == (if last >= a.to then last else a.to)
                    && window.end == (if Seeks(old(window), now, AlignDown(offset)) && last < AlignDown(offset) + BACK_SEEK
                                      then AlignDown(offset) + BUFFER else last + BUFFER - BACK_SEEK)
                    && window.startTime == now + ticks && window.endTime >= window.startTime)
    {
      var first := AlignDown(offset);
      UsableBounds(window, now, first);
      var a, head := Usable(window, now, first), Head(window, now);
      var seek, last;
      ticks, seek, last := Walk(a, head, offset, length);
      if !(last - a.from <= BACK_SEEK && a.from != a.to) {
        var start := if last >= a.to then last else a.to;
        var end := last + BUFFER - BACK_SEEK;
        if seek {
          var least := first + BUFFER;
          if end < least {
            end := least;
          }
        }
        NewWindow(a, first, offset, length, start, end);
        var begins := now + ticks;
        window := Window(start, end, begins, begins + readTime(start, end - start));
      }
    }
  }

  lemma BoundaryIs(offset: nat)
    ensures AlignUp(offset + 1) == AlignDown(offset) + BLOCK
  {
  }

  lemma StartsBlock(offset: nat)
    requires offset % BLOCK == 0
    ensures AlignDown(offset) == offset
  {
  }

  lemma StepAligned(block: nat, to: nat)
    requires block % BLOCK == 0 && to % BLOCK == 0
    ensures (block + BLOCK) % BLOCK == 0
    ensures block < to ==> block + BLOCK <= to
  {
  }

  lemma EndsAt(offset0: nat, length0: nat, offset: nat, length: nat)
    requires offset + length == offset0 + length0 && (offset == offset0 || length > 0) && offset0 <= offset
    requires length <= AlignDown(offset) + BLOCK - offset
    ensures AlignDown(offset) + BLOCK == LastBlock(offset0, length0)
  {
  }

  /** The new window satisfies the invariant, and nothing in it is negative. */
  lemma NewWindow(a: Available, first: nat, offset: nat, length: nat, start: nat, end: nat)
    requires first == AlignDown(offset) && a.from <= a.to <= a.from + BUFFER && a.from <= first && a.to % BLOCK == 0
    requires var last := LastBlock(offset, length);
             && !(last - a.from <= BACK_SEEK && a.from != a.to)
             && start == (if last >= a.to then last else a.to)
             && (end == last + BUFFER - BACK_SEEK || (end == first + BUFFER && end >= last + BUFFER - BACK_SEEK))
    ensures start % BLOCK == 0 && end % BLOCK == 0 && end - BUFFER <= start < end
  {
    LastAligned(offset, length);
    hide LastBlock, AlignDown;
  }

  lemma LastAligned(offset: nat, length: nat)
    ensures LastBlock(offset, length) % BLOCK == 0
    ensures LastBlock(offset, length) >= AlignDown(offset) + BLOCK
  {
  }
}
