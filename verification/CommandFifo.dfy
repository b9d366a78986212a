/** The command processor's FIFO registers and what bursts and chunk reads do
    to them (`cp.c`).  The FIFO is a ring of 32-byte slots in guest RAM; `end`
    addresses its last slot. */
module CommandFifo {
  import opened Bytes

  const CHUNK := 32

  /** FIFO registers, control enables, and the flags computed from them. */
  datatype Cp = Cp(
    base: u32, end: u32, hiMark: u32, loMark: u32,
    dist: u32, wptr: u32, rptr: u32, bp: u32,
    readEnable: bool, bpEnable: bool, hiInt: bool, loInt: bool, link: bool, bpInt: bool,
    hi: bool, lo: bool, breakpoint: bool, irq: bool)

  /** Watermark flags and interrupt line from the live distance. */
  function Evaluate(cp: Cp): Cp {
    var hi, lo := cp.dist > cp.hiMark, cp.dist < cp.loMark;
    cp.(hi := hi, lo := lo,
        irq := ((cp.breakpoint && cp.bpInt) || (hi && cp.hiInt) || (lo && cp.loInt)) && cp.readEnable)
  }

  /** Each flag says what the live registers make it, and the line is up exactly
      with reading enabled and an enabled cause present. */
  predicate Live(cp: Cp) {
    && (cp.hi <==> cp.dist > cp.hiMark) && (cp.lo <==> cp.dist < cp.loMark)
    && (cp.irq <==> cp.readEnable && ((cp.breakpoint && cp.bpInt) || (cp.hi && cp.hiInt) || (cp.lo && cp.loInt)))
  }

  /** WATERMARKS.  Evaluation sets flags and line to what they should be and
      touches nothing else; between the marks neither flag holds, and never both
      if the low mark is not above the high one. */
  lemma EvaluateIs(cp: Cp)
    ensures var e := Evaluate(cp);
            && Live(e) && e == cp.(hi := e.hi, lo := e.lo, irq := e.irq)
            && (cp.loMark <= cp.dist <= cp.hiMark ==> !e.hi && !e.lo)
            && (cp.loMark <= cp.hiMark ==> !(e.hi && e.lo))
    ensures Live(cp) <==> Evaluate(cp) == cp
  {
  }

  predicate AtBreakpoint(cp: Cp) {
    cp.bpEnable && cp.rptr == cp.bp
  }

  /** The slot after `ptr`. */
  function Advance(base: u32, end: u32, ptr: u32): u32 {
    if ptr == end then base else (ptr + CHUNK) % WORD
  }

  /** The graphics side takes one chunk; a distance below 32 saturates at 0. */
  function Consume(cp: Cp): Cp {
    Evaluate(cp.(rptr := Advance(cp.base, cp.end, cp.rptr),
                 dist := if cp.dist < CHUNK then 0 else cp.dist - CHUNK))
  }

  /** The CPU side has written one chunk.  Flags come from the distance before
      the burst; only a linked FIFO sees the new write pointer and distance. */
  function Burst(cp: Cp, piWptr: u32): Cp {
    var seen := Evaluate(cp);
    if !cp.link then seen else seen.(wptr := piWptr, dist := (cp.dist + CHUNK) % WORD)
  }

  /** Every pointer, mark and distance is a multiple of the chunk size. */
  predicate Aligned(cp: Cp) {
    && cp.base % CHUNK == 0 && cp.end % CHUNK == 0 && cp.hiMark % CHUNK == 0 && cp.loMark % CHUNK == 0
    && cp.dist % CHUNK == 0 && cp.wptr % CHUNK == 0 && cp.rptr % CHUNK == 0 && cp.bp % CHUNK == 0
  }

  /** What the guest can see of the FIFO: the registers and guest RAM. */
  datatype Arch = Arch(cp: Cp, ram: seq<u8>)

  function Phys(ptr: u32): nat {
    ptr % 0x2000_0000
  }

  predicate CanTake(a: Arch) {
    a.cp.dist >= CHUNK && !AtBreakpoint(a.cp) && Phys(a.cp.rptr) + CHUNK <= |a.ram|
  }

  function ChunkAt(a: Arch): (c: seq<u8>)
    requires CanTake(a)
    ensures |c| == CHUNK
  {
    a.ram[Phys(a.cp.rptr)..Phys(a.cp.rptr) + CHUNK]
  }

  function TakeChunk(a: Arch): Arch {
    a.(cp := Consume(a.cp))
  }
}
