/** What one tick of the synchronous consumer takes, told from the registers and
    memory it finds: how many chunks, which, and why no more. */
module GxTickLaws {
  import opened Bytes
  import opened GxDecode
  import opened GxStream
  import opened CommandFifo
  import opened CpDevice
  import opened GxSync

  /** The read pointer `i` slots on: the slot at `end` is followed by `base`. */
  function Pointer(base: u32, end: u32, ptr: u32, i: nat): u32
    decreases i
  {
    if i == 0 then ptr else Pointer(base, end, if ptr == end then base else (ptr + 32) % WORD, i - 1)
  }

  /** The 32 bytes a pointer addresses, its low 29 bits being enough. */
  function ChunkOf(ram: seq<u8>, ptr: u32): seq<u8> {
    if ptr % 0x2000_0000 + 32 <= |ram| then ram[ptr % 0x2000_0000..ptr % 0x2000_0000 + 32] else []
  }

  /** The bytes of `k` slots from the pointer on. */
  function Chunks(ram: seq<u8>, base: u32, end: u32, ptr: u32, k: nat): seq<u8>
    decreases k
  {
    if k == 0 then []
    else ChunkOf(ram, ptr) + Chunks(ram, base, end, if ptr == end then base else (ptr + 32) % WORD, k - 1)
  }

  function Due(m: Machine, k: nat): seq<u8> {
    Chunks(m.arch.ram, m.arch.cp.base, m.arch.cp.end, m.arch.cp.rptr, k)
  }

  /** Why chunk `i` is not taken: too little is there, the breakpoint is enabled
      and reached, the pointer is outside memory, or staging is full. */
  predicate Blocked(m: Machine, i: nat) {
    var cp := m.arch.cp;
    var ptr := Pointer(cp.base, cp.end, cp.rptr, i);
    || cp.dist - 32 * i < 32
    || (cp.bpEnable && ptr == cp.bp)
    || ptr % 0x2000_0000 + 32 > |m.arch.ram|
    || |if i == 0 then m.buf else Leftover(m.g, m.buf + Due(m, i))| + 32 > 0x4_0000
  }

  /** The state `k` chunks further: the same registers but read pointer, distance
      and flags, the same memory, and the bytes executed as far as they go. */
  ghost predicate Further(m: Machine, n: Machine, k: nat) {
    var cp, bytes := m.arch.cp, m.buf + Due(m, k);
    && n.arch.ram == m.arch.ram
    && n.arch.cp == cp.(rptr := Pointer(cp.base, cp.end, cp.rptr, k), dist := n.arch.cp.dist,
                        hi := n.arch.cp.hi, lo := n.arch.cp.lo, irq := n.arch.cp.irq)
    && n.arch.cp.dist == cp.dist - 32 * k
    && (if k == 0 then n == m else Live(n.arch.cp) && n.g == Run(m.g, bytes).g && n.buf == Leftover(m.g, bytes))
  }

  lemma OneChunk(m: Machine)
    requires CanTake(m.arch)
    ensures var cp, n := m.arch.cp, SyncChunk(m);
            && ChunkAt(m.arch) == ChunkOf(m.arch.ram, cp.rptr)
            && n.arch.ram == m.arch.ram
            && n.arch.cp == cp.(rptr := if cp.rptr == cp.end then cp.base else (cp.rptr + 32) % WORD, dist := cp.dist - 32,
                                hi := n.arch.cp.hi, lo := n.arch.cp.lo, irq := n.arch.cp.irq)
            && Live(n.arch.cp)
            && n.g == Run(m.g, m.buf + ChunkAt(m.arch)).g && n.buf == Leftover(m.g, m.buf + ChunkAt(m.arch))
  {
    hide Run, Leftover;
  }

  lemma NoneDue(m: Machine)
    ensures Due(m, 0) == [] && m.buf + Due(m, 0) == m.buf
    ensures Pointer(m.arch.cp.base, m.arch.cp.end, m.arch.cp.rptr, 0) == m.arch.cp.rptr
  {
  }

  /** After one chunk the rest is due as it was. */
  lemma DueShift(m: Machine, i: nat)
    requires CanTake(m.arch)
    ensures var n := SyncChunk(m);
            && Due(m, i + 1) == ChunkAt(m.arch) + Due(n, i)
            && Pointer(n.arch.cp.base, n.arch.cp.end, n.arch.cp.rptr, i)
               == Pointer(m.arch.cp.base, m.arch.cp.end, m.arch.cp.rptr, i + 1)
            && Run(n.g, n.buf + Due(n, i)).g == Run(m.g, m.buf + Due(m, i + 1)).g
            && Leftover(n.g, n.buf + Due(n, i)) == Leftover(m.g, m.buf + Due(m, i + 1))
  {
    hide SyncChunk, ChunkAt, ChunkOf, Run, Leftover, CanTake;
    OneChunk(m);
    var n := SyncChunk(m);
    LeftoverInPieces(m.g, m.buf + ChunkAt(m.arch), Due(n, i));
    assert m.buf + Due(m, i + 1) == (m.buf + ChunkAt(m.arch)) + Due(n, i);
  }

  lemma FirstLeft(m: Machine)
    requires CanTake(m.arch)
    ensures SyncChunk(m).buf == Leftover(m.g, m.buf + Due(m, 1))
  {
    hide SyncChunk, Run, Leftover, CanTake, ChunkAt, ChunkOf, Live;
    OneChunk(m);
    assert Due(m, 1) == ChunkOf(m.arch.ram, m.arch.cp.rptr);
  }

  lemma BlockedShift(m: Machine, i: nat)
    requires CanTake(m.arch)
    ensures Blocked(SyncChunk(m), i) <==> Blocked(m, i + 1)
  {
    hide SyncChunk, Run, Leftover, Due, Pointer, CanTake, ChunkAt, ChunkOf, Live;
    OneChunk(m);
    DueShift(m, i);
    NoneDue(SyncChunk(m));
    FirstLeft(m);
  }

  lemma FurtherShift(m: Machine, n: Machine, k: nat)
    requires CanTake(m.arch) && Further(SyncChunk(m), n, k)
    ensures Further(m, n, k + 1)
  {
    hide SyncChunk, Run, Leftover, Due, Pointer, CanTake, ChunkAt, ChunkOf, Live;
    OneChunk(m);
    DueShift(m, k);
    if k == 0 {
      NoneDue(SyncChunk(m));
      FurtherOne(m);
    }
  }

  lemma FurtherOne(m: Machine)
    requires CanTake(m.arch)
    ensures Further(m, SyncChunk(m), 1)
  {
    hide SyncChunk, Run, Leftover, CanTake, ChunkAt, ChunkOf, Live;
    OneChunk(m);
    assert Due(m, 1) == ChunkOf(m.arch.ram, m.arch.cp.rptr);
  }

  lemma GuardIs(m: Machine, drained: nat)
    ensures SyncGuard(m, drained) <==> drained < 1024 && !Blocked(m, 0)
  {
    NoneDue(m);
    hide Leftover, Due, Pointer;
  }

  lemma {:induction false} LoopTakes(m: Machine, drained: nat) returns (k: nat)
    requires drained % 32 == 0 && drained <= 1024
    ensures 32 * k <= 1024 - drained && Further(m, SyncLoop(m, drained), k)
    ensures forall i :: 0 <= i < k ==> !Blocked(m, i)
    ensures drained + 32 * k == 1024 || Blocked(m, k)
    decreases 1024 - drained
  {
    hide SyncChunk, Blocked, Further, Run, Leftover, CanTake;
    GuardIs(m, drained);
    if SyncGuard(m, drained) {
      var j := LoopTakes(SyncChunk(m), drained + 32);
      k := j + 1;
      FurtherShift(m, SyncLoop(m, drained), j);
      BlockedShift(m, j);
      forall i | 0 <= i < k
        ensures !Blocked(m, i)
      {
        if i > 0 {
          BlockedShift(m, i - 1);
        }
      }
    } else {
      k := 0;
      StaysPut(m);
    }
  }

  lemma StaysPut(m: Machine)
    ensures Further(m, m, 0)
  {
    NoneDue(m);
    hide Due, Run, Leftover;
  }

  /** ONE TICK.  With reading enabled it takes whole chunks from the read pointer
      on, none of them at an enabled breakpoint, at most 32 in all, and stops short
      of that only where it is blocked; with reading disabled it does nothing. */
  lemma TickTakes(m: Machine) returns (k: nat)
    ensures k <= 32 && Further(m, SyncTick(m), k)
    ensures forall i :: 0 <= i < k ==> !Blocked(m, i)
    ensures if m.arch.cp.readEnable then k == 32 || Blocked(m, k) else k == 0
  {
    hide SyncLoop, Blocked, Further;
    if m.arch.cp.readEnable {
      k := LoopTakes(m, 0);
    } else {
      k := 0;
      StaysPut(m);
    }
  }

  /** The command-idle bit does not lie: a tick that finds it set takes nothing. */
  lemma CommandIdleIsIdle(m: Machine)
    requires Bit(StatusWord(m.arch.cp), 8)
    ensures SyncTick(m) == m
  {
  }

  /** Nor does it stay clear for nothing: with an aligned distance and the pointer
      in memory, a clear bit means that the next tick takes a chunk. */
  lemma NotIdleTakes(m: Machine)
    requires !Bit(StatusWord(m.arch.cp), 8) && m.arch.cp.dist % 32 == 0
    requires m.arch.cp.rptr % 0x2000_0000 + 32 <= |m.arch.ram| && |m.buf| + 32 <= 0x4_0000
    ensures SyncTick(m) == SyncLoop(SyncChunk(m), 32)
  {
    hide SyncChunk;
  }
}
