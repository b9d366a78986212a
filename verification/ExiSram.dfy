/** The IPL device on the EXI bus (`exi.c`, channel 0, device 1): mask ROM,
    real-time clock and SRAM behind one chip select.  A transaction is a command
    word, then transfers at a moving cursor. */
module ExiSram {
  import opened Arithmetic
  import opened BigEndian
  import opened Bytes
  import D = ClockDevices
  import K = Clocks

  const IPL := 2      // one-hot chip select of device 1
  const SIZE := 0x40
  const CMD_RTC_READ := 0x2000_0000
  const CMD_SRAM_READ := 0x2000_0100
  const CMD_RTC_WRITE := 0xA000_0000
  const CMD_SRAM_WRITE := 0xA000_0100

  datatype Op = NoOp | RomRead | RtcRead | SramRead | RtcWrite | SramWrite

  /** The device, and the select and immediate-data registers of its channel. */
  datatype Device = Device(sram: seq<u8>, rtc: K.Rtc, rom: seq<u8>, romBase: u32,
                           op: Op, haveCmd: bool, pos: u32, romOffset: u32, select: nat, data: u32)

  function Decode(cmd: u32): Op {
    if cmd == CMD_RTC_READ then RtcRead
    else if cmd == CMD_SRAM_READ then SramRead
    else if cmd == CMD_RTC_WRITE then RtcWrite
    else if cmd == CMD_SRAM_WRITE then SramWrite
    else if cmd < 0x8000_0000 then RomRead
    else NoOp
  }

  /** The first `n` bytes of a word, most significant first. */
  function TopBytes(word: u32, n: nat): (bytes: seq<u8>)
    requires n <= 4
    ensures |bytes| == n
  {
    [Field(word, 0x100_0000, 256), Field(word, 0x1_0000, 256), Field(word, 0x100, 256), Field(word, 1, 256)][..n]
  }

  /** A word with the bytes at its top and zeros below. */
  function Pack(bytes: seq<u8>): (word: u32)
    requires |bytes| <= 4
  {
    var d := bytes + seq(4 - |bytes|, _ => 0);
    0x100_0000 * (d[0] as int) + 0x1_0000 * (d[1] as int) + 0x100 * (d[2] as int) + d[3] as int
  }

  lemma PackRoundTrip(bytes: seq<u8>)
    requires |bytes| <= 4
    ensures TopBytes(Pack(bytes), |bytes|) == bytes
  {
    var d := bytes + seq(4 - |bytes|, _ => 0);
    assert TopBytes(Pack(bytes), 4) == d by {
      var w := Pack(bytes);
      assert w / 0x1_0000 == 0x100 * (d[0] as int) + d[1] as int;
      assert w / 0x100 == 0x1_0000 * (d[0] as int) + 0x100 * (d[1] as int) + d[2] as int;
    }
    assert TopBytes(Pack(bytes), |bytes|) == TopBytes(Pack(bytes), 4)[..|bytes|];
  }

  /** BYTE ORDER.  The bytes of a word are its big-endian spelling from the top, and
      packing reads them back as such a number, padded with zeros below. */
  lemma PackedBigEndian(word: u32, bytes: seq<u8>, n: nat)
    requires |bytes| <= 4 && n <= 4
    ensures TopBytes(word, n) == Spelled(word, 4)[..n]
    ensures Pack(bytes) == Number(bytes + seq(4 - |bytes|, _ => 0))
  {
    var d := bytes + seq(4 - |bytes|, _ => 0);
    ReadersAre(d);
    assert d[..4] == d && Pack(bytes) == Be32(d);
    SpelledWord(word);
  }

  lemma SpelledWord(word: u32)
    ensures Spelled(word, 4)
            == [Field(word, 0x100_0000, 256), Field(word, 0x1_0000, 256), Field(word, 0x100, 256), Field(word, 1, 256)]
  {
    assert word / 256 / 256 == word / 0x1_0000 && word / 256 / 256 / 256 == word / 0x100_0000;
    assert Spelled(word / 256 / 256 / 256, 1) == [] + [Field(word, 0x100_0000, 256)];
    assert Spelled(word / 256 / 256, 2) == [Field(word, 0x100_0000, 256)] + [Field(word, 0x1_0000, 256)];
    assert Spelled(word / 256, 3) == [Field(word, 0x100_0000, 256), Field(word, 0x1_0000, 256)] + [Field(word, 0x100, 256)];
  }

  /** The commands by their numbers: any other with the top bit clear reads the
      ROM, any other with it set does nothing. */
  lemma CommandsAre(cmd: u32)
    ensures Decode(0x2000_0000) == RtcRead && Decode(0x2000_0100) == SramRead
    ensures Decode(0xA000_0000) == RtcWrite && Decode(0xA000_0100) == SramWrite
    ensures cmd < 0x8000_0000 && cmd != 0x2000_0000 && cmd != 0x2000_0100 ==> Decode(cmd) == RomRead
    ensures cmd >= 0x8000_0000 && cmd != 0xA000_0000 && cmd != 0xA000_0100 ==> Decode(cmd) == NoOp
  {
  }

  /** Bytes of the image from the 32-bit cursor `pos`; past its end it reads as 0. */
  function ReadAt(sram: seq<u8>, pos: u32, n: nat): (bytes: seq<u8>)
    ensures |bytes| == n
  {
    seq<u8>(n, i requires 0 <= i < n => ByteAt(sram, (pos + i) % WORD))
  }

  function ByteAt(sram: seq<u8>, p: nat): u8 {
    if p < |sram| && p < SIZE then sram[p] else 0
  }

  /** The image with bytes stored from the cursor; past its end they are ignored. */
  function WriteAt(sram: seq<u8>, pos: u32, bytes: seq<u8>): (r: seq<u8>)
    ensures |r| == |sram|
  {
    seq(|sram|, i requires 0 <= i < |sram| =>
      if (i - pos) % WORD < |bytes| then bytes[(i - pos) % WORD] else sram[i])
  }

  /** Bytes of the mask ROM from the cursor; 0 outside what is mapped. */
  function RomAt(d: Device, n: nat): (bytes: seq<u8>)
    ensures |bytes| == n
  {
    seq<u8>(n, i requires 0 <= i < n => RomByte(d.rom, d.romBase, (d.romOffset + i) % WORD))
  }

  function RomByte(rom: seq<u8>, base: u32, p: nat): u8 {
    if base <= p < base + |rom| then rom[p - base] else 0
  }

  // ---- transfers ----------------------------------------------------------

  /** A change of chip select begins a fresh transaction. */
  function Select(d: Device, select: nat): Device {
    if select != d.select then d.(op := NoOp, haveCmd := false, pos := 0, romOffset := 0, select := select) else d
  }

  /** An edge of the select drops command and cursors; the same select again does
      nothing. */
  lemma SelectEdge(d: Device, select: nat)
    ensures select == d.select ==> Select(d, select) == d
    ensures select != d.select ==>
              var e := Select(d, select);
              e.op.NoOp? && !e.haveCmd && e.pos == 0 && e.romOffset == 0 && e.select == select && e.sram == d.sram && e.rtc == d.rtc
  {
  }

  /** A write transfer of `n` bytes: of the data register, whose four bytes are
      all there is. */
  function WriteTransfer(d: Device, n: nat, now: K.u64): Device {
    if d.select != IPL then d
    else if !d.haveCmd then
      var op := Decode(d.data);
      d.(haveCmd := true, pos := 0, op := op, romOffset := if op.RomRead? then d.data / 64 else d.romOffset)
    else if d.op.RtcWrite? then d.(rtc := K.RtcStore(d.rtc, d.data, now))
    else if d.op.SramWrite? then
      d.(sram := WriteAt(d.sram, d.pos, TopBytes(d.data, if n < 4 then n else 4)), pos := (d.pos + n) % WORD)
    else d
  }

  function ImmWrite(d: Device, word: u32, n: nat, now: K.u64): Device
    requires 1 <= n <= 4
  {
    WriteTransfer(d.(data := word), n, now)
  }

  /** An immediate read.  Without a device or a read command 0 is driven. */
  function ImmRead(d: Device, n: nat, now: K.u64): Device
    requires 1 <= n <= 4
  {
    if d.select != IPL then d.(data := 0)
    else if d.op.RomRead? then d.(data := Pack(RomAt(d, n)), romOffset := (d.romOffset + n) % WORD)
    else if d.op.RtcRead? then ReadClock(d, now)
    else if d.op.SramRead? then d.(data := Pack(ReadAt(d.sram, d.pos, n)), pos := (d.pos + n) % WORD)
    else d.(data := 0)
  }

  function ReadClock(d: Device, now: K.u64): Device {
    var r := K.RtcRead(d.rtc, now);
    d.(rtc := r.rtc, data := r.value)
  }

  /** A block read by DMA, and the bytes that go to memory. */
  function DmaRead(d: Device, n: nat, now: K.u64): (Device, seq<u8>) {
    if d.select != IPL then (d, [])
    else if d.op.RomRead? then (d.(romOffset := (d.romOffset + n) % WORD), RomAt(d, n))
    else if d.op.RtcRead? then (ReadClock(d, now), [])
    else if d.op.SramRead? then (d.(pos := (d.pos + n) % WORD), ReadAt(d.sram, d.pos, n))
    else (d, [])
  }

  /** ROUTING.  With another device selected, or none, no transfer reaches the
      IPL device, and an immediate read drives 0. */
  lemma Unselected(d: Device, word: u32, n: nat, m: nat, now: K.u64)
    requires d.select != IPL && 1 <= n <= 4
    ensures ImmWrite(d, word, n, now) == d.(data := word) && WriteTransfer(d, m, now) == d
    ensures ImmRead(d, n, now) == d.(data := 0) && DmaRead(d, m, now) == (d, [])
  {
  }

  // ---- streams ------------------------------------------------------------

  /** One immediate write of a stream: the word, how many bytes count, and when. */
  datatype Piece = Piece(word: u32, n: nat, at: K.u64)

  predicate Legal(ps: seq<Piece>) {
    forall i :: 0 <= i < |ps| ==> 1 <= ps[i].n <= 4
  }

  function Payload(ps: seq<Piece>): seq<u8>
    requires Legal(ps)
  {
    if ps == [] then [] else Payload(ps[..|ps| - 1]) + TopBytes(ps[|ps| - 1].word, ps[|ps| - 1].n)
  }

  function WriteAll(d: Device, ps: seq<Piece>): Device
    requires Legal(ps)
  {
    if ps == [] then d
    else ImmWrite(WriteAll(d, ps[..|ps| - 1]), ps[|ps| - 1].word, ps[|ps| - 1].n, ps[|ps| - 1].at)
  }

  /** Moving a 32-bit cursor on. */
  lemma Moved(pos: nat, m: int, i: int)
    ensures ((pos + m) % WORD + i) % WORD == (pos + m + i) % WORD
  {
    var q := (pos + m) / WORD;
    assert pos + m == WORD * q + (pos + m) % WORD;
    DivModAdd((pos + m) % WORD + i, WORD, q);
  }

  lemma WriteJoins(sram: seq<u8>, pos: u32, a: seq<u8>, b: seq<u8>)
    requires |a| + |b| <= WORD
    ensures WriteAt(WriteAt(sram, pos, a), (pos + |a|) % WORD, b) == WriteAt(sram, pos, a + b)
  {
    var x, y := WriteAt(WriteAt(sram, pos, a), (pos + |a|) % WORD, b), WriteAt(sram, pos, a + b);
    forall i | 0 <= i < |sram|
      ensures x[i] == y[i]
    {
      Distance(i, pos, |a|);
    }
  }

  lemma Distance(i: nat, pos: u32, m: nat)
    requires m <= WORD
    ensures var k := (i - pos) % WORD;
            (i - (pos + m) % WORD) % WORD == if k < m then (k - m + WORD) % WORD else k - m
  {
    var k, q := (i - pos) % WORD, (i - pos) / WORD;
    var r := (pos + m) / WORD;
    assert i - pos == WORD * q + k && pos + m == WORD * r + (pos + m) % WORD;
    assert i - (pos + m) % WORD == (k - m) + WORD * (q + r);
    DivModAdd(k - m, WORD, q + r);
    if k < m {
      DivModAdd(k - m, WORD, 1);
    } else {
      DivModUnique(k - m, WORD, 0, k - m);
    }
  }

  lemma {:induction false} StreamWrites(d: Device, ps: seq<Piece>)
    requires Legal(ps) && d.select == IPL && d.haveCmd && d.op.SramWrite? && |Payload(ps)| <= WORD
    ensures var e := WriteAll(d, ps);
            && e.sram == WriteAt(d.sram, d.pos, Payload(ps)) && e.pos == (d.pos + |Payload(ps)|) % WORD
            && e.haveCmd && e.op.SramWrite? && e.select == d.select && e.rtc == d.rtc
  {
    hide TopBytes, WriteAt;
    if ps == [] {
      NothingWritten(d.sram, d.pos);
      Moved(d.pos, 0, 0);
    } else {
      var z, p := ps[..|ps| - 1], ps[|ps| - 1];
      StreamWrites(d, z);
      WriteJoins(d.sram, d.pos, Payload(z), TopBytes(p.word, p.n));
      Moved(d.pos, |Payload(z)|, p.n);
    }
  }

  lemma NothingWritten(sram: seq<u8>, pos: u32)
    ensures WriteAt(sram, pos, []) == sram
  {
  }

  /** One immediate read of a stream: how many bytes, and when. */
  datatype Take = Take(n: nat, at: K.u64)

  predicate LegalSizes(ts: seq<Take>) {
    forall i :: 0 <= i < |ts| ==> 1 <= ts[i].n <= 4
  }

  /** The bytes a run of immediate reads returns, word by word. */
  function ReadAll(d: Device, ts: seq<Take>): (r: (Device, seq<u8>))
    requires LegalSizes(ts)
  {
    if ts == [] then (d, [])
    else
      var (e, bytes) := ReadAll(d, ts[..|ts| - 1]);
      var t := ts[|ts| - 1];
      var f := ImmRead(e, t.n, t.at);
      (f, bytes + TopBytes(f.data, t.n))
  }

  lemma ReadJoins(sram: seq<u8>, pos: u32, m: nat, n: nat)
    ensures ReadAt(sram, pos, m) + ReadAt(sram, (pos + m) % WORD, n) == ReadAt(sram, pos, m + n)
  {
    var x, y := ReadAt(sram, pos, m) + ReadAt(sram, (pos + m) % WORD, n), ReadAt(sram, pos, m + n);
    forall i | 0 <= i < m + n
      ensures x[i] == y[i]
    {
      Moved(pos, m, i - m);
    }
  }

  lemma {:induction false} StreamReads(d: Device, ts: seq<Take>)
    requires LegalSizes(ts) && d.select == IPL && d.op.SramRead?
    ensures var (e, bytes) := ReadAll(d, ts);
            && bytes == ReadAt(d.sram, d.pos, |bytes|) && e.pos == (d.pos + |bytes|) % WORD
            && e.op.SramRead? && e.select == IPL && e.sram == d.sram
  {
    hide TopBytes, Pack, ReadAt;
    if ts != [] {
      var z, t := ts[..|ts| - 1], ts[|ts| - 1];
      StreamReads(d, z);
      var (e, bytes) := ReadAll(d, z);
      PackRoundTrip(ReadAt(e.sram, e.pos, t.n));
      ReadJoins(d.sram, d.pos, |bytes|, t.n);
      Moved(d.pos, |bytes|, t.n);
    } else {
      Moved(d.pos, 0, 0);
      NothingRead(d.sram, d.pos);
    }
  }

  lemma NothingRead(sram: seq<u8>, pos: u32)
    ensures ReadAt(sram, pos, 0) == []
  {
  }

  lemma RomJoins(d: Device, m: nat, n: nat)
    ensures RomAt(d, m) + RomAt(d.(romOffset := (d.romOffset + m) % WORD), n) == RomAt(d, m + n)
  {
    var x, y := RomAt(d, m) + RomAt(d.(romOffset := (d.romOffset + m) % WORD), n), RomAt(d, m + n);
    forall i | 0 <= i < m + n
      ensures x[i] == y[i]
    {
      Moved(d.romOffset, m, i - m);
    }
  }

  lemma RomFrame(d: Device, e: Device, n: nat)
    requires e.rom == d.rom && e.romBase == d.romBase && e.romOffset == d.romOffset
    ensures RomAt(e, n) == RomAt(d, n)
  {
  }

  lemma {:induction false} StreamReadsRom(d: Device, ts: seq<Take>)
    requires LegalSizes(ts) && d.select == IPL && d.op.RomRead?
    ensures var (e, bytes) := ReadAll(d, ts);
            && bytes == RomAt(d, |bytes|) && e.romOffset == (d.romOffset + |bytes|) % WORD
            && e.op.RomRead? && e.select == IPL && e.rom == d.rom && e.romBase == d.romBase
  {
    hide TopBytes, Pack, RomAt;
    if ts != [] {
      var z, t := ts[..|ts| - 1], ts[|ts| - 1];
      StreamReadsRom(d, z);
      var (e, bytes) := ReadAll(d, z);
      RomFrame(d.(romOffset := (d.romOffset + |bytes|) % WORD), e, t.n);
      PackRoundTrip(RomAt(e, t.n));
      RomJoins(d, |bytes|, t.n);
      Moved(d.romOffset, |bytes|, t.n);
    } else {
      Moved(d.romOffset, 0, 0);
      NoRom(d);
    }
  }

  lemma NoRom(d: Device)
    ensures RomAt(d, 0) == []
  {
  }

  // ---- transactions -------------------------------------------------------

  /** Deselect, select the device, send a command word. */
  function Begin(d: Device, cmd: u32, now: K.u64): Device {
    ImmWrite(Select(Select(d, 0), IPL), cmd, 4, now)
  }

  /** Whatever came before, a fresh selection takes the command and puts the
      cursor at the front, or where the command says in the ROM. */
  lemma BeginStarts(d: Device, cmd: u32, now: K.u64)
    ensures var e := Begin(d, cmd, now);
            && e.haveCmd && e.pos == 0 && e.op == Decode(cmd) && e.select == IPL
            && e.sram == d.sram && e.rtc == d.rtc && e.rom == d.rom && e.romBase == d.romBase
            && (e.op.RomRead? ==> e.romOffset == cmd / 64)
  {
  }

  /** ROUND TRIP.  An image streamed out in any mix of 1 to 4 byte writes is what
      any later read transaction returns, in any other mix followed by any DMA
      block, from any state of the device before either; past its end it reads as
      zeros. */
  lemma WrittenIsRead(d: Device, ps: seq<Piece>, ts: seq<Take>, block: nat, t0: K.u64, t1: K.u64, t2: K.u64)
    requires |d.sram| == SIZE && Legal(ps) && LegalSizes(ts)
    requires |Payload(ps)| == SIZE
    ensures var w := WriteAll(Begin(d, CMD_SRAM_WRITE, t0), ps);
            var (e, bytes) := ReadAll(Begin(w, CMD_SRAM_READ, t1), ts);
            var (_, tail) := DmaRead(e, block, t2);
            w.sram == Payload(ps) && bytes + tail == ReadAt(Payload(ps), 0, |bytes| + block)
  {
    hide ImmWrite, ImmRead, Select, Begin, ReadAt, DmaRead, ReadAll, WriteAll, Payload;
    BeginStarts(d, CMD_SRAM_WRITE, t0);
    StreamWrites(Begin(d, CMD_SRAM_WRITE, t0), ps);
    var w := WriteAll(Begin(d, CMD_SRAM_WRITE, t0), ps);
    WholeImage(d.sram, Payload(ps));
    BeginStarts(w, CMD_SRAM_READ, t1);
    DmaContinues(Begin(w, CMD_SRAM_READ, t1), ts, block, t2);
  }

  lemma WholeImage(sram: seq<u8>, bytes: seq<u8>)
    requires |sram| == |bytes| == SIZE
    ensures WriteAt(sram, 0, bytes) == bytes
  {
  }

  /** The same by DMA, after any number of immediate reads. */
  lemma DmaContinues(d: Device, ts: seq<Take>, n: nat, now: K.u64)
    requires LegalSizes(ts) && d.select == IPL && d.op.SramRead?
    ensures var (e, bytes) := ReadAll(d, ts);
            var (_, block) := DmaRead(e, n, now);
            bytes + block == ReadAt(d.sram, d.pos, |bytes| + n)
  {
    hide ImmRead, ReadAt;
    StreamReads(d, ts);
    var (e, bytes) := ReadAll(d, ts);
    ReadJoins(d.sram, d.pos, |bytes|, n);
  }

  /** The mask ROM likewise, from the byte the command names. */
  lemma RomIsRead(d: Device, cmd: u32, ts: seq<Take>, n: nat, t0: K.u64, now: K.u64)
    requires LegalSizes(ts) && Decode(cmd).RomRead?
    ensures var b := Begin(d, cmd, t0);
            var (e, bytes) := ReadAll(b, ts);
            var (_, block) := DmaRead(e, n, now);
            && bytes + block == RomAt(b, |bytes| + n)
            && forall i :: 0 <= i < |bytes + block| ==>
                 (bytes + block)[i] == RomByte(d.rom, d.romBase, (cmd / 64 + i) % WORD)
  {
    BeginStarts(d, cmd, t0);
    var b := Begin(d, cmd, t0);
    hide ImmRead, Begin, Pack, TopBytes;
    StreamReadsRom(b, ts);
    var (e, bytes) := ReadAll(b, ts);
    RomFrame(b.(romOffset := (b.romOffset + |bytes|) % WORD), e, n);
    RomJoins(b, |bytes|, n);
  }

  /** CLOCK.  A value written is read back with the whole seconds since added if
      the clock runs, and unchanged if it does not. */
  lemma ClockIsKept(d: Device, value: u32, t0: K.u64, t1: K.u64, t2: K.u64, t3: K.u64)
    requires t1 <= t3
    ensures var w := ImmWrite(Begin(d, CMD_RTC_WRITE, t0), value, 4, t1);
            var r := ImmRead(Begin(w, CMD_RTC_READ, t2), 4, t3);
            && r.sram == d.sram
            && r.data == if d.rtc.running then (value + (t3 - t1) / K.HZ) % WORD else value
  {
    BeginStarts(d, CMD_RTC_WRITE, t0);
    var b := Begin(d, CMD_RTC_WRITE, t0);
    var w := ImmWrite(b, value, 4, t1);
    hide Begin;
    assert w.rtc == K.RtcStore(d.rtc, value, t1) && w.sram == d.sram;
    BeginStarts(w, CMD_RTC_READ, t2);
    if d.rtc.running {
      K.RtcValue(w.rtc, t3);
    }
  }

  /** Anything written past the end is dropped, however it is cut, as long as the
      32-bit cursor does not come round. */
  lemma ExcessIgnored(d: Device, ps: seq<Piece>)
    requires |d.sram| == SIZE && Legal(ps) && d.select == IPL && d.haveCmd && d.op.SramWrite?
    requires d.pos >= SIZE && d.pos + |Payload(ps)| <= WORD
    ensures WriteAll(d, ps).sram == d.sram
  {
    hide ImmWrite, Payload, WriteAll;
    StreamWrites(d, ps);
    NothingInside(d.sram, d.pos, Payload(ps));
  }

  lemma NothingInside(sram: seq<u8>, pos: u32, bytes: seq<u8>)
    requires |sram| == SIZE <= pos && pos + |bytes| <= WORD
    ensures WriteAt(sram, pos, bytes) == sram
  {
    var x := WriteAt(sram, pos, bytes);
    forall i | 0 <= i < |sram|
      ensures x[i] == sram[i]
    {
      DivModUnique(i - pos, WORD, -1, i - pos + WORD);
    }
  }

  // ---- the device object --------------------------------------------------

  class Ipl {
    const sram: array<u8>
    const rtc: D.RealTimeClock
    const rom: seq<u8>
    const romBase: u32
    var op: Op
    var haveCmd: bool
    var pos: u32
    var romOffset: u32
    var select: nat
    var data: u32

    ghost predicate Valid() {
      sram.Length == SIZE
    }

    function View(): Device
      requires Valid()
      reads this, sram, rtc
    {
      Device(sram[..], rtc.View(), rom, romBase, op, haveCmd, pos, romOffset, select, data)
    }

    constructor (rom: seq<u8>, romBase: u32)
      ensures Valid() && fresh(sram) && fresh(rtc)
      ensures View() == Device(seq(SIZE, _ => 0), K.Rtc(0, 0, false), rom, romBase, NoOp, false, 0, 0, 0, 0)
    {
      this.rom, this.romBase := rom, romBase;
      sram := new u8[SIZE](_ => 0);
      rtc := new D.RealTimeClock();
      op, haveCmd, pos, romOffset, select, data := NoOp, false, 0, 0, 0, 0;
      new;
      assert sram[..] == seq(SIZE, _ => 0);
    }

    method ChipSelect(cs: nat)
      requires Valid()
      modifies `op, `haveCmd, `pos, `romOffset, `select
      ensures View() == Select(old(View()), cs)
    {
      if cs != select {
        op, haveCmd, pos, romOffset := NoOp, false, 0, 0;
        select := cs;
      }
    }

    method StoreBytes(n: nat)
      requires Valid() && n <= 4
      modifies sram
      ensures sram[..] == WriteAt(old(sram[..]), pos, TopBytes(data, n))
    {
      hide TopBytes, WriteAt;
      ghost var before, bytes := sram[..], TopBytes(data, n);
      NothingWritten(before, pos);
      for i := 0 to n
        invariant sram[..] == WriteAt(before, pos, bytes[..i])
      {
        var p := (pos + i) % WORD;
        var b := TopBytes(data, n)[i];
        OneMore(sram[..], p, b);
        assert bytes[..i + 1] == bytes[..i] + [b];
        WriteJoins(before, pos, bytes[..i], [b]);
        if p < SIZE {
          sram[p] := b;
        }
      }
      assert bytes[..n] == bytes;
    }

    /** A write transfer, immediate or by DMA: the command word first, then the
        payload, of which only the data register's bytes exist. */
    method Transfer(n: nat, now: K.u64)
      requires Valid()
      modifies `haveCmd, `pos, `op, `romOffset, sram, rtc
      ensures Valid() && View() == WriteTransfer(old(View()), n, now)
    {
      hide TopBytes, WriteAt;
      if select != IPL {
        return;
      }
      if !haveCmd {
        haveCmd, pos := true, 0;
        op := Decode(data);
        if op == RomRead {
          romOffset := data / 64;
        }
      } else if op == RtcWrite {
        rtc.Write(data, now);
      } else if op == SramWrite {
        StoreBytes(if n < 4 then n else 4);
        pos := (pos + n) % WORD;
      }
    }

    method Write(word: u32, n: nat, now: K.u64)
      requires Valid() && 1 <= n <= 4
      modifies this, sram, rtc
      ensures Valid() && View() == ImmWrite(old(View()), word, n, now)
    {
      data := word;
      hide WriteTransfer;
      Transfer(n, now);
    }

    method ReadRom(n: nat)
      requires Valid() && 1 <= n <= 4 && select == IPL && op == RomRead
      modifies `data, `romOffset
      ensures View() == ImmRead(old(View()), n, 0)
    {
      hide Pack;
      ghost var before := View();
      var bytes: seq<u8> := [];
      for i := 0 to n
        invariant bytes == RomAt(before, i)
      {
        var off := (romOffset + i) % WORD;
        bytes := bytes + [if romBase <= off && off - romBase < |rom| then rom[off - romBase] else 0];
      }
      data := Pack(bytes);
      romOffset := (romOffset + n) % WORD;
    }

    method ReadSram(n: nat)
      requires Valid() && 1 <= n <= 4 && select == IPL && op == SramRead
      modifies `data, `pos
      ensures View() == ImmRead(old(View()), n, 0)
    {
      hide Pack;
      var bytes: seq<u8> := [];
      for i := 0 to n
        invariant bytes == ReadAt(sram[..], pos, i)
      {
        var p := (pos + i) % WORD;
        bytes := bytes + [if p < SIZE then sram[p] else 0];
      }
      data := Pack(bytes);
      pos := (pos + n) % WORD;
    }

    method Read(n: nat, now: K.u64)
      requires Valid() && 1 <= n <= 4
      modifies `data, `pos, `romOffset, rtc
      ensures Valid() && View() == ImmRead(old(View()), n, now)
    {
      hide Pack, ReadAt, RomAt;
      if select != IPL {
        data := 0;
      } else if op == RomRead {
        ReadRom(n);
      } else if op == RtcRead {
        data := rtc.Read(now);
      } else if op == SramRead {
        ReadSram(n);
      } else {
        data := 0;
      }
    }
  }

  lemma OneMore(sram: seq<u8>, p: u32, b: u8)
    requires |sram| == SIZE
    ensures WriteAt(sram, p, [b]) == if p < SIZE then sram[p := b] else sram
  {
    var x := WriteAt(sram, p, [b]);
    forall i | 0 <= i < |sram|
      ensures x[i] == if i == p then b else sram[i]
    {
      if i >= p {
        DivModUnique(i - p, WORD, 0, i - p);
      } else {
        DivModUnique(i - p, WORD, -1, i - p + WORD);
      }
    }
  }
}
