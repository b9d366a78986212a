/** No FIFO byte is lost, repeated or reordered between a CPU store and its
    execution: executed commands, staged bytes, the chunks in the guest-RAM ring
    and the gather stage are, end to end, what was stored. */
module Conservation {
  import opened Arithmetic
  import opened Bytes
  import opened GxDecode
  import opened GxStream
  import opened CommandFifo
  import opened CpDevice
  import opened GatherPipe
  import opened GxSync

  // ---- slots of a ring ----------------------------------------------------

  /** A ring of `n` chunks at `base`. */
  datatype Ring = Ring(ram: seq<u8>, base: nat, n: nat)

  ghost predicate Fits(r: Ring) {
    r.n > 0 && r.base + CHUNK * r.n <= |r.ram|
  }

  function SlotAt(r: Ring, i: nat): (at: nat)
    requires Fits(r)
    ensures r.base <= at && at + CHUNK <= r.base + CHUNK * r.n
  {
    var k := i % r.n;
    assert CHUNK * (k + 1) <= CHUNK * r.n;
    r.base + CHUNK * k
  }

  function Slot(r: Ring, i: nat): (c: seq<u8>)
    requires Fits(r)
    ensures |c| == CHUNK
  {
    r.ram[SlotAt(r, i)..SlotAt(r, i) + CHUNK]
  }

  /** The bytes of `k` consecutive slots. */
  function Chunks(r: Ring, first: nat, k: nat): seq<u8>
    requires Fits(r)
  {
    if k == 0 then [] else Chunks(r, first, k - 1) + Slot(r, first + k - 1)
  }

  lemma {:induction false} TakeFirst(r: Ring, first: nat, k: nat)
    requires Fits(r) && k > 0
    ensures Chunks(r, first, k) == Slot(r, first) + Chunks(r, first + 1, k - 1)
  {
    hide Slot;
    if k > 1 {
      TakeFirst(r, first, k - 1);
    }
  }

  lemma {:induction false} WrapAround(r: Ring, k: nat)
    requires Fits(r)
    ensures Chunks(r, r.n, k) == Chunks(r, 0, k)
  {
    if k > 0 {
      WrapAround(r, k - 1);
      DivModAdd(k - 1, r.n, 1);
    }
  }

  /** Slots less than a whole ring apart do not overlap. */
  lemma Disjoint(r: Ring, first: nat, i: nat, j: nat)
    requires Fits(r) && i < j < i + r.n
    ensures var a, b := SlotAt(r, first + i), SlotAt(r, first + j);
            a + CHUNK <= b || b + CHUNK <= a
  {
    var a, b := (first + i) % r.n, (first + j) % r.n;
    if a == b {
      var qa, qb := (first + i) / r.n, (first + j) / r.n;
      assert j - i == r.n * qb - r.n * qa;
      assert r.n * qb - r.n * qa == r.n * (qb - qa);
      MulStep(r.n, qb - qa);
    }
  }

  lemma OverwriteElsewhere(ram: seq<u8>, at: nat, chunk: seq<u8>, from: nat)
    requires at + CHUNK <= |ram| && from + CHUNK <= |ram| && |chunk| == CHUNK
    requires from + CHUNK <= at || at + CHUNK <= from
    ensures Overwrite(ram, at, chunk)[from..from + CHUNK] == ram[from..from + CHUNK]
  {
  }

  lemma {:induction false} OverwriteKeeps(r: Ring, chunk: seq<u8>, first: nat, k: nat, j: nat)
    requires Fits(r) && |chunk| == CHUNK && k <= j < r.n
    ensures var q := r.(ram := Overwrite(r.ram, SlotAt(r, first + j), chunk));
            Fits(q) && Chunks(q, first, k) == Chunks(r, first, k)
  {
    hide Overwrite;
    if k > 0 {
      OverwriteKeeps(r, chunk, first, k - 1, j);
      Disjoint(r, first, k - 1, j);
      OverwriteElsewhere(r.ram, SlotAt(r, first + j), chunk, SlotAt(r, first + k - 1));
    }
  }

  lemma OverwriteHere(r: Ring, chunk: seq<u8>, i: nat)
    requires Fits(r) && |chunk| == CHUNK
    ensures var q := r.(ram := Overwrite(r.ram, SlotAt(r, i), chunk));
            Fits(q) && Slot(q, i) == chunk
  {
  }

  // ---- the FIFO as a ring -------------------------------------------------

  /** An aligned ring that lies in guest RAM. */
  ghost predicate Laid(cp: Cp, size: nat) {
    && cp.base % CHUNK == 0 && cp.end % CHUNK == 0 && cp.base <= cp.end
    && cp.end + CHUNK <= size <= 0x2000_0000
  }

  function Slots(cp: Cp): int {
    (cp.end - cp.base) / CHUNK + 1
  }

  function First(cp: Cp): int {
    (cp.rptr - cp.base) / CHUNK
  }

  function Held(cp: Cp): int {
    cp.dist / CHUNK
  }

  ghost function RingOf(a: Arch): (r: Ring)
    requires Laid(a.cp, |a.ram|)
    ensures Fits(r)
  {
    Ring(a.ram, a.cp.base, Slots(a.cp))
  }

  /** The registers describe the ring: aligned, both sides agreeing on it, and
      the write pointer as far ahead of the read pointer as the distance says. */
  ghost predicate Tracked(a: Arch, pi: Pi) {
    && Laid(a.cp, |a.ram|) && a.cp.link && pi.base == a.cp.base && pi.end == a.cp.end
    && a.cp.base <= a.cp.rptr <= a.cp.end && a.cp.rptr % CHUNK == 0
    && a.cp.dist % CHUNK == 0 && Held(a.cp) <= Slots(a.cp)
    && pi.wptr == SlotAt(RingOf(a), First(a.cp) + Held(a.cp))
  }

  /** Chunks written but not taken yet, oldest first. */
  ghost function InFlight(a: Arch): seq<u8> {
    if Laid(a.cp, |a.ram|) && First(a.cp) >= 0 then Chunks(RingOf(a), First(a.cp), Held(a.cp)) else []
  }

  ghost predicate Conserves(p: Gather, m: Machine, stored: seq<u8>) {
    && Tracked(p.arch, p.pi) && |p.stage| < CHUNK && m.arch == p.arch && m.g.depth == 0
    && Flatten(m.g.log) + m.buf + InFlight(p.arch) + p.stage == stored
  }

  // ---- a chunk goes in ----------------------------------------------------

  /** The pointer after slot `i` addresses slot `i + 1`. */
  lemma AdvanceSlot(r: Ring, end: u32, i: nat)
    requires Fits(r) && r.base + CHUNK * r.n <= 0x2000_0000 && end == r.base + CHUNK * (r.n - 1)
    ensures Advance(r.base, end, SlotAt(r, i)) == SlotAt(r, i + 1)
  {
    var k := i % r.n;
    assert i == r.n * (i / r.n) + k;
    if k == r.n - 1 {
      assert i + 1 == r.n * (i / r.n + 1) + 0;
      DivModUnique(i + 1, r.n, i / r.n + 1, 0);
    } else {
      assert k < r.n - 1;
      DivModUnique(i + 1, r.n, i / r.n, k + 1);
      assert CHUNK * k < CHUNK * (r.n - 1);
    }
  }

  lemma EndIsLast(a: Arch)
    requires Laid(a.cp, |a.ram|)
    ensures a.cp.end == a.cp.base + CHUNK * (Slots(a.cp) - 1)
    ensures a.cp.base + CHUNK * Slots(a.cp) == a.cp.end + CHUNK
  {
  }

  lemma InWhole(base: nat, ptr: nat)
    requires base % CHUNK == 0 && ptr % CHUNK == 0 && base <= ptr
    ensures ptr == base + CHUNK * ((ptr - base) / CHUNK)
  {
  }

  lemma SmallSlot(r: Ring, i: nat)
    requires Fits(r) && i < r.n
    ensures SlotAt(r, i) == r.base + CHUNK * i
  {
    DivModUnique(i, r.n, 0, i);
  }

  lemma FirstIsRead(a: Arch)
    requires Laid(a.cp, |a.ram|) && a.cp.base <= a.cp.rptr <= a.cp.end && a.cp.rptr % CHUNK == 0
    ensures 0 <= First(a.cp) < Slots(a.cp)
    ensures SlotAt(RingOf(a), First(a.cp)) == a.cp.rptr && Phys(a.cp.rptr) == a.cp.rptr
  {
    InWhole(a.cp.base, a.cp.rptr);
    InWhole(a.cp.base, a.cp.end);
    hide SlotAt;
    SmallSlot(RingOf(a), First(a.cp));
  }

  lemma RingAdds(r: Ring, chunk: seq<u8>, first: nat, k: nat)
    requires Fits(r) && |chunk| == CHUNK && k < r.n
    ensures var q := r.(ram := Overwrite(r.ram, SlotAt(r, first + k), chunk));
            Fits(q) && Chunks(q, first, k + 1) == Chunks(r, first, k) + chunk
  {
    hide Overwrite, Chunks, Slot, SlotAt;
    var q := r.(ram := Overwrite(r.ram, SlotAt(r, first + k), chunk));
    OverwriteKeeps(r, chunk, first, k, k);
    OverwriteHere(r, chunk, first + k);
    ChunksEnd(q, first, k + 1);
  }

  /** A burst into a ring with room adds its chunk behind those in flight. */
  lemma BurstAdds(p: Gather)
    requires Tracked(p.arch, p.pi) && |p.stage| == CHUNK && Held(p.arch.cp) < Slots(p.arch.cp)
    ensures Tracked(Flush(p).arch, Flush(p).pi)
    ensures InFlight(Flush(p).arch) == InFlight(p.arch) + p.stage
  {
    BurstTracked(p);
    FirstIsRead(p.arch);
    RingAdds(RingOf(p.arch), p.stage, First(p.arch.cp), Held(p.arch.cp));
    hide Overwrite, Flush, Chunks, Slot, SlotAt, Phys, First, Held, Slots, Laid;
  }

  lemma BurstTracked(p: Gather)
    requires Tracked(p.arch, p.pi) && |p.stage| == CHUNK && Held(p.arch.cp) < Slots(p.arch.cp)
    ensures Tracked(Flush(p).arch, Flush(p).pi)
    ensures First(Flush(p).arch.cp) == First(p.arch.cp) >= 0 && Held(Flush(p).arch.cp) == Held(p.arch.cp) + 1
    ensures RingOf(Flush(p).arch)
            == RingOf(p.arch).(ram := Overwrite(p.arch.ram, SlotAt(RingOf(p.arch), First(p.arch.cp) + Held(p.arch.cp)), p.stage))
  {
    var a := p.arch;
    FirstIsRead(a);
    EndIsLast(a);
    BurstRegisters(p);
    hide Overwrite, Flush, Advance, SlotAt, Phys, First, Held, Slots, Laid;
    AdvanceSlot(RingOf(a), a.cp.end, First(a.cp) + Held(a.cp));
    SameSlots(RingOf(a), RingOf(Flush(p).arch), First(a.cp) + Held(a.cp) + 1);
  }

  lemma ChunksEnd(r: Ring, first: nat, k: nat)
    requires Fits(r) && k > 0
    ensures Chunks(r, first, k) == Chunks(r, first, k - 1) + Slot(r, first + k - 1)
  {
  }

  lemma SameSlots(r: Ring, q: Ring, i: nat)
    requires Fits(r) && Fits(q) && r.base == q.base && r.n == q.n
    ensures SlotAt(r, i) == SlotAt(q, i)
  {
  }

  lemma FlushRegisters(p: Gather)
    requires |p.stage| == CHUNK && p.pi.wptr + CHUNK <= |p.arch.ram| <= 0x2000_0000
    requires p.arch.cp.link && p.arch.cp.dist + CHUNK < WORD
    ensures var q := Flush(p);
            && q.stage == [] && q.pi == p.pi.(wptr := Advance(p.pi.base, p.pi.end, p.pi.wptr))
            && q.arch == Arch(q.arch.cp, Overwrite(p.arch.ram, p.pi.wptr, p.stage))
            && q.arch.cp == Evaluate(p.arch.cp).(wptr := q.pi.wptr, dist := p.arch.cp.dist + CHUNK)
  {
    hide Overwrite, Evaluate, Advance;
    EvaluateKeeps(p.arch.cp);
  }

  lemma EvaluateKeeps(cp: Cp)
    ensures var e := Evaluate(cp);
            && e.base == cp.base && e.end == cp.end && e.rptr == cp.rptr && e.wptr == cp.wptr
            && e.dist == cp.dist && e.link == cp.link
  {
  }

  lemma MoreHeld(a: Cp, b: Cp)
    requires a.dist % CHUNK == 0 && b.dist == a.dist + CHUNK
    requires b.base == a.base && b.end == a.end && b.rptr == a.rptr
    ensures b.dist % CHUNK == 0 && Held(b) == Held(a) + 1
    ensures Slots(b) == Slots(a) && First(b) == First(a)
  {
  }

  lemma HeldBound(a: Arch)
    requires Laid(a.cp, |a.ram|) && Held(a.cp) <= Slots(a.cp)
    ensures a.cp.dist + CHUNK < WORD
  {
  }

  lemma BurstRegisters(p: Gather)
    requires Tracked(p.arch, p.pi) && |p.stage| == CHUNK && Held(p.arch.cp) < Slots(p.arch.cp)
    ensures var q, cp := Flush(p), p.arch.cp;
            && q.stage == [] && q.pi == p.pi.(wptr := Advance(cp.base, cp.end, p.pi.wptr))
            && p.pi.wptr + CHUNK <= |p.arch.ram|
            && q.arch.ram == Overwrite(p.arch.ram, p.pi.wptr, p.stage)
            && q.arch.cp.base == cp.base && q.arch.cp.end == cp.end && q.arch.cp.rptr == cp.rptr
            && q.arch.cp.link && q.arch.cp.dist == cp.dist + CHUNK
            && Laid(q.arch.cp, |q.arch.ram|) && q.arch.cp.dist % CHUNK == 0
            && Slots(q.arch.cp) == Slots(cp) && First(q.arch.cp) == First(cp) && Held(q.arch.cp) == Held(cp) + 1
  {
    EndIsLast(p.arch);
    SlotBound(RingOf(p.arch), First(p.arch.cp) + Held(p.arch.cp));
    HeldBound(p.arch);
    FlushRegisters(p);
    EvaluateKeeps(p.arch.cp);
    MoreHeld(p.arch.cp, Flush(p).arch.cp);
    hide Overwrite, SlotAt, Advance, Flush, Evaluate, First, Slots, Held;
  }

  lemma SlotBound(r: Ring, i: nat)
    requires Fits(r)
    ensures SlotAt(r, i) + CHUNK <= r.base + CHUNK * r.n
  {
  }

  // ---- a chunk comes out --------------------------------------------------

  /** Moving on by one slot of the ring, first index kept below `n`. */
  function Next(r: Ring, first: nat): nat {
    if first + 1 == r.n then 0 else first + 1
  }

  lemma RingMoves(r: Ring, first: nat, k: nat)
    requires Fits(r) && first < r.n && k > 0
    ensures Chunks(r, first, k) == Slot(r, first) + Chunks(r, Next(r, first), k - 1)
    ensures SlotAt(r, Next(r, first) + (k - 1)) == SlotAt(r, first + k)
    ensures SlotAt(r, first + 1) == SlotAt(r, Next(r, first))
  {
    hide Slot;
    TakeFirst(r, first, k);
    WrapAround(r, k - 1);
    DivModAdd(k - 1, r.n, 1);
    DivModAdd(0, r.n, 1);
  }

  lemma TakenRegisters(a: Arch)
    requires a.cp.dist >= CHUNK
    ensures var cp := TakeChunk(a).cp;
            && cp.base == a.cp.base && cp.end == a.cp.end && cp.link == a.cp.link
            && cp.rptr == Advance(a.cp.base, a.cp.end, a.cp.rptr) && cp.dist == a.cp.dist - CHUNK
            && TakeChunk(a).ram == a.ram
  {
    EvaluateKeeps(a.cp.(rptr := Advance(a.cp.base, a.cp.end, a.cp.rptr), dist := a.cp.dist - CHUNK));
    hide Evaluate, Advance;
  }

  lemma LessHeld(a: Cp, b: Cp)
    requires a.dist % CHUNK == 0 && a.dist >= CHUNK && b.dist == a.dist - CHUNK
    requires b.base == a.base && b.end == a.end
    ensures b.dist % CHUNK == 0 && Held(b) == Held(a) - 1 >= 0 && Slots(b) == Slots(a)
  {
  }

  lemma FirstOf(cp: Cp, i: nat)
    requires cp.base % CHUNK == 0 && cp.rptr == cp.base + CHUNK * i
    ensures First(cp) == i && cp.rptr % CHUNK == 0
  {
  }

  lemma TakenTracked(a: Arch, pi: Pi)
    requires Tracked(a, pi) && a.cp.dist >= CHUNK
    ensures Tracked(TakeChunk(a), pi) && RingOf(TakeChunk(a)) == RingOf(a) && 0 <= First(a.cp) < Slots(a.cp)
    ensures First(TakeChunk(a).cp) == Next(RingOf(a), First(a.cp)) && Held(TakeChunk(a).cp) == Held(a.cp) - 1 >= 0
  {
    var r, b := RingOf(a), TakeChunk(a);
    FirstIsRead(a);
    EndIsLast(a);
    TakenRegisters(a);
    LessHeld(a.cp, b.cp);
    var first, k := First(a.cp), Held(a.cp);
    hide TakeChunk, Advance, SlotAt, Chunks, Slot, Slots, Held, First, Phys;
    AdvanceSlot(r, a.cp.end, first);
    RingMoves(r, first, k);
    SmallSlot(r, Next(r, first));
    FirstOf(b.cp, Next(r, first));
  }

  /** The chunk taken is the oldest in flight; the others stay in order. */
  lemma TakeRemoves(a: Arch, pi: Pi)
    requires Tracked(a, pi) && CanTake(a)
    ensures Tracked(TakeChunk(a), pi)
    ensures InFlight(a) == ChunkAt(a) + InFlight(TakeChunk(a))
  {
    TakenTracked(a, pi);
    FirstIsRead(a);
    RingMoves(RingOf(a), First(a.cp), Held(a.cp));
    hide TakeChunk, SlotAt, Chunks, Slots, Held, First, Next;
  }

  // ---- every event conserves ----------------------------------------------

  function Executed(m: Machine): seq<u8> {
    Flatten(m.g.log) + m.buf
  }

  lemma FeedConserves(m: Machine, bytes: seq<u8>)
    requires m.g.depth == 0
    ensures Executed(Feed(m, bytes)) == Executed(m) + bytes
    ensures Feed(m, bytes).g.depth == 0
  {
    hide Run;
    LogIsTheBytesTaken(m.g, m.buf + bytes);
  }

  lemma ChunkConserves(p: Gather, m: Machine, stored: seq<u8>)
    requires Conserves(p, m, stored) && CanTake(m.arch)
    ensures Conserves(p.(arch := TakeChunk(p.arch)), SyncChunk(m), stored)
  {
    hide Tracked, TakeChunk, Feed, Flatten, InFlight, ChunkAt;
    TakeRemoves(p.arch, p.pi);
    FeedConserves(m, ChunkAt(m.arch));
    FeedFrame(m, ChunkAt(m.arch));
    assert Flatten(m.g.log) + m.buf + InFlight(p.arch) + p.stage
           == (Executed(m) + ChunkAt(m.arch)) + InFlight(TakeChunk(p.arch)) + p.stage;
  }

  lemma FeedFrame(m: Machine, bytes: seq<u8>)
    ensures Feed(m, bytes).arch == m.arch
  {
  }

  /** A tick moves chunks from the ring to the decoder and loses none. */
  lemma {:induction false} LoopConserves(p: Gather, m: Machine, drained: nat, stored: seq<u8>)
    requires Conserves(p, m, stored)
    ensures Conserves(p.(arch := SyncLoop(m, drained).arch), SyncLoop(m, drained), stored)
    decreases BUDGET - drained
  {
    hide Conserves, SyncChunk, CanTake;
    if SyncGuard(m, drained) {
      ChunkConserves(p, m, stored);
      LoopConserves(p.(arch := TakeChunk(p.arch)), SyncChunk(m), drained + CHUNK, stored);
    } else {
      SameArch(p, m, stored);
    }
  }

  lemma SameArch(p: Gather, m: Machine, stored: seq<u8>)
    requires Conserves(p, m, stored)
    ensures p.(arch := m.arch) == p
  {
  }

  lemma TickConserves(p: Gather, m: Machine, stored: seq<u8>)
    requires Conserves(p, m, stored)
    ensures Conserves(p.(arch := SyncTick(m).arch), SyncTick(m), stored)
  {
    hide Conserves, SyncLoop;
    SameArch(p, m, stored);
    LoopConserves(p, m, 0, stored);
  }

  lemma AppendConserves(p: Gather, m: Machine, b: u8, stored: seq<u8>)
    requires Conserves(p, m, stored) && (|p.stage| == CHUNK - 1 ==> Held(p.arch.cp) < Slots(p.arch.cp))
    ensures Conserves(Append(p, b), m.(arch := Append(p, b).arch), stored + [b])
  {
    hide Tracked, Flatten, InFlight, Flush, Held, Slots;
    var q := p.(stage := p.stage + [b]);
    if |q.stage| == CHUNK {
      BurstAdds(q);
      FlushEmpties(q);
      assert stored + [b] == Flatten(m.g.log) + m.buf + (InFlight(p.arch) + q.stage) + [];
    } else {
      assert stored + [b] == Flatten(m.g.log) + m.buf + InFlight(p.arch) + (p.stage + [b]);
    }
  }

  lemma FlushEmpties(p: Gather)
    ensures Flush(p).stage == []
  {
  }

  /** A store of `size` bytes makes no burst, or the ring has room for one. */
  ghost predicate Room(p: Gather, size: nat) {
    |p.stage| + size < CHUNK || Held(p.arch.cp) < Slots(p.arch.cp)
  }

  lemma {:induction false} StoreConserves(p: Gather, m: Machine, bytes: seq<u8>, stored: seq<u8>)
    requires Conserves(p, m, stored) && |bytes| < CHUNK && Room(p, |bytes|)
    ensures var q := AppendAll(p, bytes); Conserves(q, m.(arch := q.arch), stored + bytes)
    decreases |bytes|
  {
    hide Conserves, Append, Held, Slots;
    StageShort(p, m, stored);
    if bytes == [] {
      SameArch(p, m, stored);
      assert stored + [] == stored;
    } else {
      var q := Append(p, bytes[0]);
      AppendConserves(p, m, bytes[0], stored);
      StillRoom(p, bytes[0], |bytes|);
      StoreConserves(q, m.(arch := q.arch), bytes[1..], stored + [bytes[0]]);
      assert stored + [bytes[0]] + bytes[1..] == stored + bytes;
    }
  }

  lemma StageShort(p: Gather, m: Machine, stored: seq<u8>)
    requires Conserves(p, m, stored)
    ensures |p.stage| < CHUNK
  {
  }

  lemma StillRoom(p: Gather, b: u8, size: nat)
    requires |p.stage| < CHUNK && 0 < size < CHUNK && Room(p, size)
    ensures Room(Append(p, b), size - 1)
  {
    hide Flush, Held, Slots;
    FlushEmpties(p.(stage := p.stage + [b]));
  }
}
