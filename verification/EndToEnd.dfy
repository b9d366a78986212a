/** The whole path of a GX command, from the CPU store to its execution on the
    worker thread: gather pipe, FIFO ring, scanner, SPSC ring, decoder. */
module EndToEnd {
  import opened Arithmetic
  import opened BigEndian
  import opened Bytes
  import opened GxDecode
  import opened GxStream
  import opened CommandFifo
  import opened CpDevice
  import opened GatherPipe
  import opened GxSync
  import opened GxPipeline
  import opened GxPipelineInv
  import opened GxPipelineSteps
  import opened GxPipelineRefines
  import opened GxPipelineTheorems
  import opened Conservation

  datatype Whole = Whole(stage: seq<u8>, pi: Pi, sys: Sys)

  /** The guest stores to the gather pipe, or changes FIFO enables, marks,
      breakpoint or other memory; or one of the two threads takes a step. */
  datatype Event = Store(value: u32, size: nat) | Adjust(arch: Arch) | Thread(step: Label)

  function GatherOf(w: Whole, a: Arch): Gather {
    Gather(w.stage, w.pi, a)
  }

  /** The ring registers and the memory the ring lies in are left alone. */
  ghost predicate Undisturbed(a: Arch, b: Arch) {
    && b.cp.base == a.cp.base && b.cp.end == a.cp.end && b.cp.link == a.cp.link
    && b.cp.dist == a.cp.dist && b.cp.rptr == a.cp.rptr && b.cp.wptr == a.cp.wptr
    && |b.ram| == |a.ram|
    && (a.cp.base <= a.cp.end && a.cp.end + CHUNK <= |a.ram| ==>
          b.ram[a.cp.base..a.cp.end + CHUNK] == a.ram[a.cp.base..a.cp.end + CHUNK])
  }

  ghost predicate Possible(w: Whole, e: Event) {
    match e
    case Store(value, size) =>
      w.sys.cpu.Idle? && Room(GatherOf(w, w.sys.arch), |StoredBytes(value, size)|)
    case Adjust(a) => w.sys.cpu.Idle? && Undisturbed(w.sys.arch, a)
    case Thread(l) => !l.Guest? && Enabled(w.sys, l)
  }

  function Stored(w: Whole, bytes: seq<u8>): Whole {
    var p := AppendAll(GatherOf(w, w.sys.arch), bytes);
    Whole(p.stage, p.pi, w.sys.(arch := p.arch))
  }

  ghost function Act(w: Whole, e: Event): Whole
    requires Possible(w, e)
  {
    match e
    case Store(value, size) => Stored(w, StoredBytes(value, size))
    case Adjust(a) => w.(sys := Do(w.sys, Guest(a)))
    case Thread(l) => w.(sys := Do(w.sys, l))
  }

  /** A store is the low bytes of its value, most significant first. */
  function BytesOf(e: Event): seq<u8> {
    if e.Store? then Spelled(e.value, Width(e.size)) else []
  }

  /** Everything the CPU has stored, in order. */
  function AllStored(es: seq<Event>): seq<u8>
    decreases |es|
  {
    if es == [] then [] else BytesOf(es[0]) + AllStored(es[1..])
  }

  ghost predicate Happens(w: Whole, es: seq<Event>)
    decreases |es|
  {
    es != [] ==> Possible(w, es[0]) && Happens(Act(w, es[0]), es[1..])
  }

  ghost function Finally(w: Whole, es: seq<Event>): Whole
    requires Happens(w, es)
    decreases |es|
  {
    if es == [] then w else Finally(Act(w, es[0]), es[1..])
  }

  // ---- the invariant ------------------------------------------------------

  ghost predicate Holds(w: Whole, stored: seq<u8>) {
    && Inv(w.sys)
    && Conserves(GatherOf(w, Outcome(w.sys).arch), Outcome(w.sys), stored)
  }

  lemma IdleArch(s: Sys)
    requires Inv(s) && s.cpu.Idle?
    ensures Outcome(s).arch == s.arch
  {
    hide Run, Leftover, Data, SyncLoop, Guarded, Flow, Mode, Carried, FencesAhead, Published, Wakes;
  }

  lemma {:induction false} SameChunks(r: Ring, q: Ring, first: nat, k: nat)
    requires Fits(r) && Fits(q) && q.base == r.base && q.n == r.n
    requires q.ram[r.base..r.base + CHUNK * r.n] == r.ram[r.base..r.base + CHUNK * r.n]
    ensures Chunks(q, first, k) == Chunks(r, first, k)
  {
    hide SlotAt, Chunks;
    if k > 0 {
      SameChunks(r, q, first, k - 1);
      ChunksEnd(r, first, k);
      ChunksEnd(q, first, k);
      SameSlots(r, q, first + k - 1);
      SameWithin(r.ram, q.ram, r.base, r.base + CHUNK * r.n, SlotAt(r, first + k - 1));
    } else {
      NoChunks(r, first);
      NoChunks(q, first);
    }
  }

  lemma NoChunks(r: Ring, first: nat)
    requires Fits(r)
    ensures Chunks(r, first, 0) == []
  {
  }

  lemma SameWithin(a: seq<u8>, b: seq<u8>, from: nat, to: nat, at: nat)
    requires from <= at && at + CHUNK <= to <= |a| && to <= |b| && a[from..to] == b[from..to]
    ensures a[at..at + CHUNK] == b[at..at + CHUNK]
  {
    var i, x, y := at - from, a[at..at + CHUNK], b[at..at + CHUNK];
    forall k | 0 <= k < CHUNK
      ensures x[k] == y[k]
    {
      assert x[k] == a[from..to][i + k];
      assert y[k] == b[from..to][i + k];
    }
    assert x == y;
  }

  lemma UndisturbedKeeps(a: Arch, b: Arch, pi: Pi)
    requires Tracked(a, pi) && Undisturbed(a, b)
    ensures Tracked(b, pi) && InFlight(b) == InFlight(a)
  {
    FirstIsRead(a);
    EndIsLast(a);
    assert First(b.cp) == First(a.cp) && Held(b.cp) == Held(a.cp) && Slots(b.cp) == Slots(a.cp);
    hide First, Held, Slots, SlotAt, Chunks;
    SameSlots(RingOf(a), RingOf(b), First(a.cp) + Held(a.cp));
    SameChunks(RingOf(a), RingOf(b), First(a.cp), Held(a.cp));
  }

  lemma AdjustConserves(p: Gather, m: Machine, a: Arch, stored: seq<u8>)
    requires Conserves(p, m, stored) && Undisturbed(p.arch, a)
    ensures Conserves(p.(arch := a), m.(arch := a), stored)
  {
    hide Tracked, InFlight, Undisturbed;
    UndisturbedKeeps(p.arch, a, p.pi);
  }

  lemma StoreHolds(w: Whole, bytes: seq<u8>, stored: seq<u8>)
    requires Holds(w, stored) && w.sys.cpu.Idle? && |bytes| < CHUNK && Room(GatherOf(w, w.sys.arch), |bytes|)
    ensures Holds(Stored(w, bytes), stored + bytes)
  {
    hide Inv, Outcome, Conserves, AppendAll, Room;
    ShapeHere(w.sys);
    IdleArch(w.sys);
    var p := GatherOf(w, w.sys.arch);
    StoreConserves(p, Outcome(w.sys), bytes, stored);
    var a := AppendAll(p, bytes).arch;
    GuestKeepsInv(w.sys, a);
    GuestRefines(w.sys, a);
  }

  lemma AdjustHolds(w: Whole, a: Arch, stored: seq<u8>)
    requires Holds(w, stored) && w.sys.cpu.Idle? && Undisturbed(w.sys.arch, a)
    ensures Holds(w.(sys := w.sys.(arch := a)), stored)
  {
    hide Inv, Outcome, Conserves, Undisturbed;
    ShapeHere(w.sys);
    IdleArch(w.sys);
    AdjustConserves(GatherOf(w, w.sys.arch), Outcome(w.sys), a, stored);
    GuestKeepsInv(w.sys, a);
    GuestRefines(w.sys, a);
  }

  lemma ThreadHolds(w: Whole, l: Label, stored: seq<u8>)
    requires Holds(w, stored) && !l.Guest? && Enabled(w.sys, l)
    ensures Holds(w.(sys := Do(w.sys, l)), stored)
  {
    hide Inv, Outcome, Conserves, Do, Enabled, SyncTick;
    ShapeHere(w.sys);
    StepKeepsInv(w.sys, l);
    StepRefines(w.sys, l);
    if l.Tick? {
      TickConserves(GatherOf(w, Outcome(w.sys).arch), Outcome(w.sys), stored);
    }
  }

  lemma EventHolds(w: Whole, e: Event, stored: seq<u8>)
    requires Holds(w, stored) && Possible(w, e)
    ensures Holds(Act(w, e), stored + BytesOf(e))
  {
    hide Holds, Room, Undisturbed, Enabled, Do, AppendAll, StoredBytes, Stored;
    assert stored + [] == stored;
    match e
    case Store(v, n) =>
      StoreRoundTrip(v, n);
      StoreHolds(w, StoredBytes(v, n), stored);
    case Adjust(a) => AdjustStep(w, a, stored);
    case Thread(l) => ThreadHolds(w, l, stored);
  }

  lemma AdjustStep(w: Whole, a: Arch, stored: seq<u8>)
    requires Holds(w, stored) && Possible(w, Adjust(a))
    ensures Holds(w.(sys := Do(w.sys, Guest(a))), stored)
  {
    hide Holds, Undisturbed;
    AdjustHolds(w, a, stored);
  }

  lemma {:induction false} RunHolds(w: Whole, es: seq<Event>, stored: seq<u8>)
    requires Holds(w, stored) && Happens(w, es)
    ensures Holds(Finally(w, es), stored + AllStored(es))
    decreases |es|
  {
    hide Holds, Possible, Act, BytesOf;
    if es == [] {
      assert stored + [] == stored;
    } else {
      EventHolds(w, es[0], stored);
      RunHolds(Act(w, es[0]), es[1..], stored + BytesOf(es[0]));
      assert stored + BytesOf(es[0]) + AllStored(es[1..]) == stored + AllStored(es);
    }
  }

  // ---- conservation over every run ----------------------------------------

  /** A fresh machine with an empty, aligned, linked ring. */
  ghost predicate Fresh(arch: Arch, pi: Pi, g: Gx, ring: seq<u8>) {
    Start(arch, g, ring) && g.log == [] && Tracked(arch, pi) && arch.cp.dist == 0
  }

  function Boot(arch: Arch, pi: Pi, g: Gx, ring: seq<u8>, unsafe: bool): Whole {
    Whole([], pi, Init(arch, g, ring, unsafe))
  }

  lemma BootHolds(arch: Arch, pi: Pi, g: Gx, ring: seq<u8>, unsafe: bool)
    requires Fresh(arch, pi, g, ring)
    ensures Holds(Boot(arch, pi, g, ring, unsafe), [])
  {
    hide Outcome, Inv, Tracked;
    StartOutcome(arch, g, ring, unsafe);
    assert Flatten([]) == [];
  }

  lemma StreamSplit(s: Sys)
    requires Inv(s) && s.cpu.Idle?
    ensures Flatten(Outcome(s).g.log) + Outcome(s).buf == Flatten(s.g.log) + Data(s)
  {
    hide Run, Data, SyncLoop, Guarded, Flow, Mode, Carried, FencesAhead, Published, Wakes, Flatten;
    LogIsTheBytesTaken(s.g, Data(s));
  }

  /** END TO END.  Whenever a tick has returned, in any run of stores and thread
      steps in which the ring never overruns: the commands executed, the bytes
      staged or still in the SPSC ring, the chunks in the guest-RAM ring and the
      partial gather stage are, in that order, exactly the bytes the CPU stored. */
  lemma NothingLost(arch: Arch, pi: Pi, g: Gx, ring: seq<u8>, unsafe: bool, es: seq<Event>, w: Whole)
    requires Fresh(arch, pi, g, ring) && Happens(Boot(arch, pi, g, ring, unsafe), es)
    requires w == Finally(Boot(arch, pi, g, ring, unsafe), es) && w.sys.cpu.Idle?
    ensures Inv(w.sys)
    ensures Flatten(w.sys.g.log) + Data(w.sys) + InFlight(w.sys.arch) + w.stage == AllStored(es)
    ensures Tracked(w.sys.arch, w.pi)
  {
    hide Fresh, Happens, Finally, Inv, Outcome, Tracked, InFlight, Data, Flatten, AllStored, Possible, Act;
    BootHolds(arch, pi, g, ring, unsafe);
    RunHolds(Boot(arch, pi, g, ring, unsafe), es, []);
    IdleArch(w.sys);
    StreamSplit(w.sys);
    assert [] + AllStored(es) == AllStored(es);
  }

  /** The distance is the write pointer less the read pointer, modulo the size
      of the ring, whose end register addresses its last slot. */
  lemma DistanceIsGap(a: Arch, pi: Pi)
    requires Tracked(a, pi)
    ensures a.cp.dist == CHUNK * Held(a.cp) <= CHUNK * Slots(a.cp)
    ensures (pi.wptr - a.cp.rptr - a.cp.dist) % (CHUNK * Slots(a.cp)) == 0
  {
    FirstIsRead(a);
    InWhole(0, a.cp.dist);
    InWhole(a.cp.base, a.cp.rptr);
    GapMod(First(a.cp), Held(a.cp), Slots(a.cp));
    hide First, Held, Slots, Phys;
  }

  lemma GapMod(first: nat, held: nat, n: nat)
    requires n > 0
    ensures (CHUNK * ((first + held) % n) - CHUNK * first - CHUNK * held) % (CHUNK * n) == 0
  {
    var q := (first + held) / n;
    assert first + held == n * q + (first + held) % n;
    assert CHUNK * ((first + held) % n) - CHUNK * first - CHUNK * held == -(CHUNK * (n * q));
    assert CHUNK * (n * q) == (CHUNK * n) * q;
    DivModAdd(0, CHUNK * n, -q);
  }

  /** STATUS reports an idle reader when the ring is empty, and also when it is
      exactly full: the pointers then meet. */
  lemma ReadIdleExactly(a: Arch, pi: Pi)
    requires Tracked(a, pi) && a.cp.wptr == pi.wptr
    ensures ReadIdle(a.cp) <==> Held(a.cp) == 0 || Held(a.cp) == Slots(a.cp)
  {
    FirstIsRead(a);
    InWhole(0, a.cp.dist);
    hide Slots, First, Held, Phys, SlotAt;
    var r := RingOf(a);
    if 0 < Held(a.cp) < Slots(a.cp) {
      Disjoint(r, First(a.cp), 0, Held(a.cp));
    } else if Held(a.cp) == Slots(a.cp) {
      FullWraps(r, First(a.cp));
    }
  }

  lemma FullWraps(r: Ring, first: nat)
    requires Fits(r)
    ensures SlotAt(r, first + r.n) == SlotAt(r, first)
  {
    DivModAdd(first, r.n, 1);
  }

  /** The saturation at zero is unreachable: neither the consume step of the
      pipeline nor that of the synchronous loop ever finds less than a chunk. */
  lemma NoUnderflow(arch: Arch, g: Gx, ring: seq<u8>, unsafe: bool, ls: seq<Label>, s: Sys)
    requires Reaches(arch, g, ring, unsafe, ls, s)
    ensures s.cpu.Account? ==> s.arch.cp.dist >= CHUNK && AccountStep(s).arch.cp.dist == s.arch.cp.dist - CHUNK
    ensures s.cpu.Sync? && SyncStep(s).cpu.Sync? ==>
              s.arch.cp.dist >= CHUNK && SyncStep(s).arch.cp.dist == s.arch.cp.dist - CHUNK
    ensures s.cpu.Sync? && !SyncStep(s).cpu.Sync? ==> SyncStep(s).arch == s.arch
  {
    ReachedFacts(arch, g, ring, unsafe, ls, s);
    hide Flow, Mode, Carried, FencesAhead, Published, Wakes, Outcome, IsRun, After, Advance, Run, Leftover, ChunkAt;
    if s.cpu.Account? {
      TakenRegisters(s.arch);
    } else if s.cpu.Sync? {
      SyncTakes(s);
    }
  }

  lemma SyncTakes(s: Sys)
    requires s.cpu.Sync?
    ensures SyncStep(s).cpu.Sync? ==>
              s.arch.cp.dist >= CHUNK && SyncStep(s).arch.cp.dist == s.arch.cp.dist - CHUNK
    ensures !SyncStep(s).cpu.Sync? ==> SyncStep(s).arch == s.arch
  {
    hide Run, Leftover, ChunkAt, TakeChunk;
    if s.arch.cp.dist >= CHUNK {
      TakenRegisters(s.arch);
    }
  }

  // ---- a ring that is exactly full ----------------------------------------

  /** Eight four-byte stores for every slot of the ring, with no tick between. */
  function Fill(words: nat): (es: seq<Event>)
    ensures |es| == words
  {
    seq(words, _ => Store(0, 4))
  }

  /** `words` words have been stored into a ring nothing has been taken from. */
  ghost predicate Filling(w: Whole, words: nat, slots: int) {
    && w.sys.cpu.Idle? && Inv(w.sys) && Slots(w.sys.arch.cp) == slots
    && (exists stored: seq<u8> :: |stored| == 4 * words && Holds(w, stored))
    && Flatten(Outcome(w.sys).g.log) + Outcome(w.sys).buf == []
    && (words >= 8 ==> w.sys.arch.cp.wptr == w.pi.wptr)
  }

  lemma {:induction false} ChunksLength(r: Ring, first: nat, k: nat)
    requires Fits(r)
    ensures |Chunks(r, first, k)| == CHUNK * k
  {
    if k > 0 {
      ChunksLength(r, first, k - 1);
    }
  }

  /** How full stage and ring then are. */
  lemma FillLevel(w: Whole, words: nat, slots: int)
    requires Filling(w, words, slots)
    ensures Held(w.sys.arch.cp) == words / 8 && |w.stage| == words % 8 * 4
    ensures Tracked(w.sys.arch, w.pi)
  {
    IdleArch(w.sys);
    var a := w.sys.arch;
    hide Inv, Outcome, Flatten, Slots, First, Chunks;
    assert Tracked(a, w.pi);
    FirstIsRead(a);
    ChunksLength(RingOf(a), First(a.cp), Held(a.cp));
  }

  lemma {:induction false} StoreSync(p: Gather, bytes: seq<u8>)
    requires Tracked(p.arch, p.pi) && |p.stage| < CHUNK && |p.stage| + |bytes| <= CHUNK
    requires Held(p.arch.cp) < Slots(p.arch.cp)
    ensures var q := AppendAll(p, bytes);
            && Slots(q.arch.cp) == Slots(p.arch.cp)
            && (p.arch.cp.wptr == p.pi.wptr || |p.stage| + |bytes| == CHUNK ==> bytes == [] || q.arch.cp.wptr == q.pi.wptr)
    decreases |bytes|
  {
    hide Flush, Held, Slots;
    if bytes != [] {
      var q := p.(stage := p.stage + [bytes[0]]);
      if |q.stage| == CHUNK {
        BurstWrites(q);
        assert bytes[1..] == [];
      } else {
        StoreSync(q, bytes[1..]);
      }
    }
  }

  lemma BurstWrites(p: Gather)
    requires Tracked(p.arch, p.pi) && |p.stage| == CHUNK && Held(p.arch.cp) < Slots(p.arch.cp)
    ensures Flush(p).arch.cp.wptr == Flush(p).pi.wptr && Slots(Flush(p).arch.cp) == Slots(p.arch.cp)
  {
    BurstRegisters(p);
    hide Slots, Held, Evaluate, Advance;
    EvaluateKeeps(p.arch.cp);
  }

  lemma FillRoom(w: Whole, words: nat, slots: int)
    requires Filling(w, words, slots) && words < 8 * slots
    ensures Held(w.sys.arch.cp) < Slots(w.sys.arch.cp) && |w.stage| == words % 8 * 4 && Tracked(w.sys.arch, w.pi)
    ensures Possible(w, Store(0, 4))
  {
    hide Filling;
    FillLevel(w, words, slots);
    FillingSlots(w, words, slots);
    hide Tracked, Slots, Held, StoredBytes;
    assert |StoredBytes(0, 4)| == 4;
  }

  lemma FillingSlots(w: Whole, words: nat, slots: int)
    requires Filling(w, words, slots)
    ensures Slots(w.sys.arch.cp) == slots && w.sys.cpu.Idle? && Shape(w.sys)
    ensures words >= 8 ==> w.sys.arch.cp.wptr == w.pi.wptr
    ensures Flatten(Outcome(w.sys).g.log) + Outcome(w.sys).buf == []
  {
    hide Outcome, Flatten, Slots, Holds;
    ShapeHere(w.sys);
  }

  lemma FillOne(w: Whole, words: nat, slots: int)
    requires Filling(w, words, slots) && words < 8 * slots
    ensures Possible(w, Store(0, 4)) && Filling(Act(w, Store(0, 4)), words + 1, slots)
  {
    hide Filling, Possible, Act, Stored, StoredBytes, Holds, Inv, Outcome, Shape, Tracked, Held, Slots, Flatten;
    FillRoom(w, words, slots);
    FillingSlots(w, words, slots);
    FillLevel(w, words, slots);
    StoreActs(w);
    var stored := FillWitness(w, words, slots);
    var bytes := StoredBytes(0, 4);
    FillStep(w, stored, bytes);
    assert |stored + bytes| == 4 * (words + 1);
    Refilled(Stored(w, bytes), words + 1, slots, stored + bytes);
  }

  lemma StoreActs(w: Whole)
    requires Possible(w, Store(0, 4))
    ensures Act(w, Store(0, 4)) == Stored(w, StoredBytes(0, 4)) && |StoredBytes(0, 4)| == 4
  {
    hide AppendAll, Room;
  }

  lemma FillWitness(w: Whole, words: nat, slots: int) returns (stored: seq<u8>)
    requires Filling(w, words, slots)
    ensures |stored| == 4 * words && Holds(w, stored)
  {
    hide Inv, Outcome, Holds, Flatten, Slots;
    stored :| |stored| == 4 * words && Holds(w, stored);
  }

  /** Four more bytes: the stream before the ring stays as it was, and a burst
      leaves both sides with the same write pointer. */
  lemma FillStep(w: Whole, stored: seq<u8>, bytes: seq<u8>)
    requires Holds(w, stored) && w.sys.cpu.Idle? && Shape(w.sys) && Tracked(w.sys.arch, w.pi)
    requires |bytes| == 4 && |w.stage| + 4 <= CHUNK && Held(w.sys.arch.cp) < Slots(w.sys.arch.cp)
    ensures var v := Stored(w, bytes);
            && Holds(v, stored + bytes) && v.sys.cpu.Idle? && Shape(v.sys)
            && Slots(v.sys.arch.cp) == Slots(w.sys.arch.cp)
            && Outcome(v.sys).g == Outcome(w.sys).g && Outcome(v.sys).buf == Outcome(w.sys).buf
            && (w.sys.arch.cp.wptr == w.pi.wptr || |w.stage| + 4 == CHUNK ==> v.sys.arch.cp.wptr == v.pi.wptr)
  {
    hide Inv, Outcome, Slots, Held, Tracked, AppendAll, Conserves, Shape, Holds;
    var p, v := GatherOf(w, w.sys.arch), Stored(w, bytes);
    StoreSync(p, bytes);
    StoreHolds(w, bytes, stored);
    GuestRefines(w.sys, v.sys.arch);
  }

  lemma Refilled(w: Whole, words: nat, slots: int, stored: seq<u8>)
    requires w.sys.cpu.Idle? && Slots(w.sys.arch.cp) == slots && |stored| == 4 * words && Holds(w, stored)
    requires Shape(w.sys) && Flatten(Outcome(w.sys).g.log) + Outcome(w.sys).buf == []
    requires words >= 8 ==> w.sys.arch.cp.wptr == w.pi.wptr
    ensures Filling(w, words, slots)
  {
    hide Outcome, Flatten, Slots, Conserves;
  }

  lemma {:induction false} FillRuns(w: Whole, words: nat, slots: int, more: nat)
    requires Filling(w, words, slots) && words + more <= 8 * slots
    ensures Happens(w, Fill(more)) && Filling(Finally(w, Fill(more)), words + more, slots)
    decreases more
  {
    hide Filling, Possible, Act;
    if more > 0 {
      FillOne(w, words, slots);
      FillRuns(Act(w, Store(0, 4)), words + 1, slots, more - 1);
      assert Fill(more)[0] == Store(0, 4) && Fill(more)[1..] == Fill(more - 1);
    }
  }

  lemma SlotsPositive(a: Arch, pi: Pi)
    requires Tracked(a, pi)
    ensures Slots(a.cp) > 0
  {
  }

  /** The exactly full ring is reached, whatever the ring: fill it from the CPU
      before the first tick, and STATUS reports an idle reader with every slot
      of it waiting. */
  lemma FullLooksIdle(arch: Arch, pi: Pi, g: Gx, ring: seq<u8>, unsafe: bool) returns (es: seq<Event>, w: Whole)
    requires Fresh(arch, pi, g, ring)
    ensures Happens(Boot(arch, pi, g, ring, unsafe), es) && w == Finally(Boot(arch, pi, g, ring, unsafe), es)
    ensures w.sys.cpu.Idle? && ReadIdle(w.sys.arch.cp) && w.sys.arch.cp.dist > 0
    ensures |InFlight(w.sys.arch)| == CHUNK * Slots(arch.cp) == |AllStored(es)|
  {
    var w0, slots := Boot(arch, pi, g, ring, unsafe), Slots(arch.cp);
    StartOutcome(arch, g, ring, unsafe);
    BootHolds(arch, pi, g, ring, unsafe);
    SlotsPositive(arch, pi);
    hide Inv, Outcome, Flatten, Slots, Held, Tracked, Happens, Finally, InFlight, AllStored;
    assert Filling(w0, 0, slots);
    es := Fill(8 * slots);
    FillRuns(w0, 0, slots, 8 * slots);
    w := Finally(w0, es);
    FillLevel(w, 8 * slots, slots);
    ReadIdleExactly(w.sys.arch, w.pi);
    NothingLost(arch, pi, g, ring, unsafe, es, w);
    DistanceIsGap(w.sys.arch, w.pi);
    FullLength(w.sys.arch, w.pi);
    FillBytes(8 * slots);
  }

  lemma FullLength(a: Arch, pi: Pi)
    requires Tracked(a, pi)
    ensures |InFlight(a)| == CHUNK * Held(a.cp)
  {
    FirstIsRead(a);
    hide First, Held, Slots, Chunks;
    ChunksLength(RingOf(a), First(a.cp), Held(a.cp));
  }

  lemma {:induction false} FillBytes(words: nat)
    ensures |AllStored(Fill(words))| == 4 * words
  {
    if words > 0 {
      assert Fill(words)[0] == Store(0, 4) && Fill(words)[1..] == Fill(words - 1);
      FillBytes(words - 1);
    }
  }

  /** OVERRUN.  A burst into a full ring lands on the oldest chunk not taken
      yet: what the decoder reads next is the new chunk, which it meets again at
      the end, and the old one is gone.  Executed, staged and in-flight bytes are
      still what was stored if and only if the two chunks are equal. */
  lemma OverrunReplacesOldest(p: Gather, m: Machine)
    requires Tracked(p.arch, p.pi) && |p.stage| == CHUNK && Held(p.arch.cp) == Slots(p.arch.cp)
    requires !AtBreakpoint(p.arch.cp)
    ensures CanTake(p.arch) && CanTake(Flush(p).arch)
    ensures ChunkAt(Flush(p).arch) == p.stage
    ensures Flatten(m.g.log) + m.buf + InFlight(Flush(p).arch) + Flush(p).stage
            == Flatten(m.g.log) + m.buf + InFlight(p.arch) + p.stage
            <==> p.stage == ChunkAt(p.arch)
    ensures !Tracked(Flush(p).arch, Flush(p).pi)
  {
    var a := p.arch;
    OverrunLands(p);
    hide *;
    FullRing(RingOf(a), p.stage, First(a.cp));
    Differ(Flatten(m.g.log) + m.buf, p.stage, ChunkAt(a), Chunks(RingOf(a), First(a.cp) + 1, Slots(a.cp) - 1),
           InFlight(Flush(p).arch), InFlight(a), Flush(p).stage);
  }

  /** Registers and memory after the burst. */
  lemma OverrunLands(p: Gather)
    requires Tracked(p.arch, p.pi) && |p.stage| == CHUNK && Held(p.arch.cp) == Slots(p.arch.cp)
    requires !AtBreakpoint(p.arch.cp)
    ensures var a, b := p.arch, Flush(p).arch;
            && CanTake(a) && CanTake(b) && ChunkAt(b) == p.stage && Flush(p).stage == []
            && 0 <= First(a.cp) && Fits(RingOf(a)) && Slot(RingOf(a), First(a.cp)) == ChunkAt(a)
            && InFlight(a) == Chunks(RingOf(a), First(a.cp), Slots(a.cp))
            && InFlight(b) == Chunks(RingOf(a).(ram := Overwrite(a.ram, SlotAt(RingOf(a), First(a.cp)), p.stage)),
                                     First(a.cp), Slots(a.cp) + 1)
            && RingOf(a).n == Slots(a.cp) && |ChunkAt(a)| == CHUNK && !Tracked(b, Flush(p).pi)
  {
    var a := p.arch;
    FullMeets(p);
    OverrunRegisters(p);
    hide Evaluate, SlotAt, Slots, First, Held, Flush, Advance, Chunks;
    OverwriteHere(RingOf(a), p.stage, First(a.cp));
  }

  /** The pointers of a full ring meet. */
  lemma FullMeets(p: Gather)
    requires Tracked(p.arch, p.pi) && Held(p.arch.cp) == Slots(p.arch.cp)
    ensures var a := p.arch;
            && p.pi.wptr == a.cp.rptr == Phys(a.cp.rptr) == SlotAt(RingOf(a), First(a.cp))
            && 0 <= First(a.cp) && CHUNK <= a.cp.dist && a.cp.dist + CHUNK < WORD && a.cp.rptr + CHUNK <= |a.ram|
  {
    FirstIsRead(p.arch);
    FullWraps(RingOf(p.arch), First(p.arch.cp));
    FullDistance(p.arch);
    hide SlotAt, Slots, First, Held;
  }

  lemma OverrunRegisters(p: Gather)
    requires Tracked(p.arch, p.pi) && |p.stage| == CHUNK && Held(p.arch.cp) == Slots(p.arch.cp)
    ensures var a, b := p.arch, Flush(p).arch;
            && Flush(p).stage == [] && b.ram == Overwrite(a.ram, a.cp.rptr, p.stage)
            && b.cp.rptr == a.cp.rptr && b.cp.dist == a.cp.dist + CHUNK && AtBreakpoint(b.cp) == AtBreakpoint(a.cp)
            && Laid(b.cp, |b.ram|) && b.cp.base == a.cp.base
            && First(b.cp) == First(a.cp) && Held(b.cp) == Held(a.cp) + 1 && Slots(b.cp) == Slots(a.cp)
  {
    var a, b := p.arch, Flush(p).arch;
    FullMeets(p);
    FlushRegisters(p);
    EvaluateKeepsBreakpoint(a.cp);
    EvaluateKeeps(a.cp);
    hide Evaluate, SlotAt, Slots, First, Held, Flush, Advance;
    MoreHeld(a.cp, b.cp);
    LaidFrame(a.cp, b.cp, |a.ram|);
  }

  lemma LaidFrame(a: Cp, b: Cp, size: nat)
    requires Laid(a, size) && b.base == a.base && b.end == a.end
    ensures Laid(b, size)
  {
  }

  /** One burst too many: the ring reads as the new chunk, the others, and the
      new chunk again. */
  lemma FullRing(r: Ring, chunk: seq<u8>, first: nat)
    requires Fits(r) && |chunk| == CHUNK
    ensures var q := r.(ram := Overwrite(r.ram, SlotAt(r, first), chunk));
            var others := Chunks(r, first + 1, r.n - 1);
            && Chunks(r, first, r.n) == Slot(r, first) + others
            && Fits(q) && Chunks(q, first, r.n + 1) == chunk + others + chunk
  {
    hide Overwrite, Chunks, SlotAt, Slot;
    var q := r.(ram := Overwrite(r.ram, SlotAt(r, first), chunk));
    OverwriteHere(r, chunk, first);
    FullWraps(r, first);
    OverwriteKeeps(r, chunk, first + 1, r.n - 1, r.n - 1);
    assert (first + 1) + (r.n - 1) == first + r.n;
    TakeFirst(r, first, r.n);
    TakeFirst(q, first, r.n + 1);
    ChunksEnd(q, first + 1, r.n);
    SlotWraps(q, first);
    var others := Chunks(r, first + 1, r.n - 1);
    assert Chunks(q, first + 1, r.n) == others + chunk;
    assert chunk + (others + chunk) == chunk + others + chunk;
  }

  lemma SlotWraps(r: Ring, first: nat)
    requires Fits(r)
    ensures Slot(r, first + r.n) == Slot(r, first)
  {
    FullWraps(r, first);
    hide SlotAt;
  }

  lemma Differ(front: seq<u8>, x: seq<u8>, y: seq<u8>, others: seq<u8>, after: seq<u8>, before: seq<u8>, stage: seq<u8>)
    requires |x| == |y| && after == x + others + x && before == y + others && stage == []
    ensures front + after + stage == front + before + x <==> x == y
  {
    var l, r := front + after + stage, front + before + x;
    assert l[|front|..|front| + |x|] == x && r[|front|..|front| + |x|] == y;
    assert front + (x + others) + x == l;
  }

  lemma FullDistance(a: Arch)
    requires Laid(a.cp, |a.ram|) && Held(a.cp) == Slots(a.cp)
    ensures CHUNK <= a.cp.dist && a.cp.dist + CHUNK < WORD
  {
  }

  lemma EvaluateKeepsBreakpoint(cp: Cp)
    ensures var e := Evaluate(cp); e.bpEnable == cp.bpEnable && e.bp == cp.bp && e.rptr == cp.rptr
  {
  }
}
