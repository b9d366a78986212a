/** The write-gather pipe (`gp.c`): CPU stores are appended big-endian to a
    32-byte stage; a full stage is written to guest RAM at the PI write pointer
    and announced to the command processor. */
module GatherPipe {
  import opened BigEndian
  import opened Bytes
  import opened CommandFifo
  import opened CpDevice

  /** The PI's side of the FIFO ring. */
  datatype Pi = Pi(base: u32, end: u32, wptr: u32)

  datatype Gather = Gather(stage: seq<u8>, pi: Pi, arch: Arch)

  /** A burst whose pointer lies outside guest RAM is not copied, but announced
      all the same. */
  function Flush(p: Gather): Gather {
    var at := Phys(p.pi.wptr);
    var ram := if at + |p.stage| <= |p.arch.ram| then Overwrite(p.arch.ram, at, p.stage) else p.arch.ram;
    var wptr := Advance(p.pi.base, p.pi.end, p.pi.wptr);
    Gather([], p.pi.(wptr := wptr), Arch(Burst(p.arch.cp, wptr), ram))
  }

  /** BURSTS.  A full stage is stored at the low 29 bits of the write pointer, or
      nowhere if that is outside memory; either way the pointer moves on, from the
      last slot to the first, and the command processor is told: its flags see the
      distance before, and a linked FIFO the new pointer and 32 bytes more. */
  lemma FlushIs(p: Gather)
    requires |p.stage| == 32
    ensures var q, cp, at := Flush(p), p.arch.cp, p.pi.wptr % 0x2000_0000;
            && q.stage == [] && |q.arch.ram| == |p.arch.ram|
            && (if at + 32 <= |p.arch.ram| then
                  q.arch.ram[at..at + 32] == p.stage && q.arch.ram[..at] == p.arch.ram[..at] && q.arch.ram[at + 32..] == p.arch.ram[at + 32..]
                else q.arch.ram == p.arch.ram)
            && q.pi == p.pi.(wptr := if p.pi.wptr == p.pi.end then p.pi.base else (p.pi.wptr + 32) % WORD)
            && (q.arch.cp.hi <==> cp.dist > cp.hiMark) && (q.arch.cp.lo <==> cp.dist < cp.loMark)
            && q.arch.cp.rptr == cp.rptr
            && q.arch.cp.wptr == (if cp.link then q.pi.wptr else cp.wptr)
            && q.arch.cp.dist == (if cp.link then (cp.dist + 32) % WORD else cp.dist)
  {
  }

  function Append(p: Gather, b: u8): Gather {
    var q := p.(stage := p.stage + [b]);
    if |q.stage| == CHUNK then Flush(q) else q
  }

  function AppendAll(p: Gather, bytes: seq<u8>): Gather
    decreases |bytes|
  {
    if bytes == [] then p else AppendAll(Append(p, bytes[0]), bytes[1..])
  }

  /** The low `size` bytes of a word, most significant first; a store wider than
      the bus word counts as four bytes. */
  function StoredBytes(value: u32, size: nat): (bytes: seq<u8>)
    ensures |bytes| == if size > 4 then 4 else size
  {
    if size >= 4 then [Field(value, 0x100_0000, 256), Field(value, 0x1_0000, 256), Field(value, 0x100, 256), Field(value, 1, 256)]
    else if size == 3 then [Field(value, 0x1_0000, 256), Field(value, 0x100, 256), Field(value, 1, 256)]
    else if size == 2 then [Field(value, 0x100, 256), Field(value, 1, 256)]
    else if size == 1 then [Field(value, 1, 256)]
    else []
  }

  /** Bytes of a store that count. */
  function Width(size: nat): nat {
    if size > 4 then 4 else size
  }

  /** ROUND TRIP.  The bytes of a store of any size, read as a big-endian number,
      are the value as far as that many bytes can hold it. */
  lemma StoreRoundTrip(value: u32, size: nat)
    ensures |StoredBytes(value, size)| == Width(size)
    ensures Number(StoredBytes(value, size)) == value % Power(Width(size))
    ensures StoredBytes(value, size) == Spelled(value, Width(size))
  {
    StoredAreSpelled(value, size);
    NumberOfSpelled(value, Width(size));
    hide Number, Power, Spelled;
  }

  lemma SpelledStep(v: nat, n: nat)
    ensures Spelled(v, n + 1) == Spelled(v / 256, n) + [Field(v, 1, 256)]
    ensures Spelled(v, 0) == []
  {
  }

  lemma StoredAreSpelled(value: u32, size: nat)
    ensures StoredBytes(value, size) == Spelled(value, Width(size))
  {
    var v1, v2, v3 := value / 256, value / 256 / 256, value / 256 / 256 / 256;
    assert v2 == value / 0x1_0000 && v3 == value / 0x100_0000;
    hide Spelled;
    if size >= 1 {
      SpelledStep(value, Width(size) - 1);
    }
    if size >= 2 {
      SpelledStep(v1, Width(size) - 2);
    }
    if size >= 3 {
      SpelledStep(v2, Width(size) - 3);
    }
    if size >= 4 {
      SpelledStep(v3, 0);
    }
    SpelledStep(0, 0);
    SpelledStep(value, 0);
    SpelledStep(v1, 0);
    SpelledStep(v2, 0);
    SpelledStep(v3 / 256, 0);
  }

  function Shift(i: nat): (w: nat)
    ensures w > 0
  {
    match i
    case 0 => 1
    case 1 => 0x100
    case 2 => 0x1_0000
    case _ => 0x100_0000
  }

  class Pipe {
    const stage: array<u8>
    var count: nat
    var base: u32
    var end: u32
    var wptr: u32
    const cp: CommandProcessor
    const ram: array<u8>

    ghost predicate Valid() reads `count {
      && stage.Length == CHUNK && count < CHUNK && cp.Valid()
      && stage != ram
    }

    function View(): Gather
      requires Valid()
      reads this, stage, cp, cp.reg, ram
    {
      Gather(stage[..count], Pi(base, end, wptr), Arch(cp.View(), ram[..]))
    }

    constructor (cp: CommandProcessor, ram: array<u8>, base: u32, end: u32, wptr: u32)
      requires cp.Valid()
      ensures Valid() && fresh(stage) && this.cp == cp && this.ram == ram
      ensures View() == Gather([], Pi(base, end, wptr), Arch(cp.View(), ram[..]))
    {
      stage := new u8[CHUNK](i => 0);
      count := 0;
      this.base, this.end, this.wptr := base, end, wptr;
      this.cp, this.ram := cp, ram;
    }

    method CopyToRam(at: nat)
      requires stage.Length == CHUNK && stage != ram && at + CHUNK <= ram.Length
      modifies ram
      ensures ram[..] == Overwrite(old(ram[..]), at, stage[..])
    {
      ghost var before := ram[..];
      for i := 0 to CHUNK
        invariant ram[..] == before[..at] + stage[..i] + before[at + i..]
      {
        ram[at + i] := stage[i];
      }
    }

    method FlushBurst()
      requires stage.Length == CHUNK && cp.Valid() && stage != ram
      modifies this`wptr, cp, cp.reg, ram
      ensures Gather([], Pi(base, end, wptr), Arch(cp.View(), ram[..]))
              == Flush(old(Gather(stage[..], Pi(base, end, wptr), Arch(cp.View(), ram[..]))))
    {
      hide Evaluate, Overwrite;
      var at := Phys(wptr);
      if at + CHUNK <= ram.Length {
        CopyToRam(at);
      }
      if wptr == end {
        wptr := base;
      } else {
        wptr := (wptr + CHUNK) % WORD;
      }
      cp.GatherPipeBursted(wptr);
    }

    method AppendByte(b: u8)
      requires Valid()
      modifies stage, this`count, this`wptr, cp, cp.reg, ram
      ensures Valid() && View() == Append(old(View()), b)
    {
      hide Flush;
      stage[count] := b;
      count := count + 1;
      assert stage[..count] == old(stage[..count]) + [b];
      if count == CHUNK {
        assert stage[..] == stage[..count];
        FlushBurst();
        count := 0;
      }
    }

    /** A guest store of any size at any offset of the window. */
    method Write(value: u32, size: nat)
      requires Valid()
      modifies stage, this`count, this`wptr, cp, cp.reg, ram
      ensures Valid() && View() == AppendAll(old(View()), StoredBytes(value, size))
      ensures View() == AppendAll(old(View()), Spelled(value, if size > 4 then 4 else size))
    {
      StoreRoundTrip(value, size);
      hide Append, Field, Spelled, Power, Number;
      var bytes := if size > 4 then 4 else size;
      ghost var stored := StoredBytes(value, size);
      for i := 0 to bytes
        invariant Valid()
        invariant AppendAll(View(), stored[i..]) == AppendAll(old(View()), stored)
      {
        var b := Field(value, Shift(bytes - 1 - i), 256);
        assert stored[i..][0] == b && stored[i..][1..] == stored[i + 1..];
        AppendByte(b);
      }
    }

    /** What is staged is dropped; bursts already made are not undone. */
    method Reset()
      requires Valid()
      modifies this`count
      ensures Valid() && View() == old(View()).(stage := [])
    {
      count := 0;
    }
  }
}
