/** Facts about bytes on their way from the scanner to the decoder, used by the
    proof about the pipeline: what a push, a pull and a decode do to the stream
    that is not executed yet. */
module GxFlow {
  import opened Bytes
  import opened GxDecode
  import opened GxStream
  import opened GxScanner
  import opened CommandFifo
  import opened GxPipeline

  lemma PartialFacts(g: Gx, d: seq<u8>, pos: int)
    requires CommandSize(g.cp, d) == 0
    ensures Run(g, d) == Ran(g, 0) && Leftover(g, d) == d
    ensures FenceEnds(d, pos) == {}
    ensures Scan(d).used == 0
  {
    hide CommandSize, ScanCommand;
    ScanAgrees(g.cp, d);
    FenceStep(d, pos);
    assert d[0..] == d;
  }

  lemma LeftoverFacts(g: Gx, d: seq<u8>)
    ensures CommandSize(Run(g, d).g.cp, Leftover(g, d)) == 0
    ensures |Leftover(g, d)| == |d| - Run(g, d).used
  {
    hide Run, CommandSize, Apply;
    LeftoverIsPartial(g, d);
    RunStep(Run(g, d).g, Leftover(g, d));
  }

  lemma SizablePrefix(a: seq<u8>, b: seq<u8>)
    requires Sizable(a + b)
    ensures Sizable(a)
  {
    hide Scan;
    ScanInPieces(a, b, 0);
  }

  lemma SizableLeftover(g: Gx, d: seq<u8>)
    requires Sizable(d)
    ensures Leftover(g, d) == d[Scan(d).used..]
    ensures |Leftover(g, d)| <= 68
    ensures ScanCommand(Leftover(g, d)).Partial?
  {
    hide Run, Scan;
    ScanFollowsRun(g, d);
    ScanLeftover(d);
  }

  /** Scanning the carry with a chunk appended tells all about the unexecuted
      stream with the chunk appended. */
  lemma ScanPush(g: Gx, data: seq<u8>, chunk: seq<u8>, pos: int)
    requires Sizable(data) && Sizable(Leftover(g, data) + chunk)
    ensures Sizable(data + chunk)
    ensures var carry := Leftover(g, data);
            var scan := Scan(carry + chunk);
            var from := pos + |data| - |carry|;
            && Leftover(g, data + chunk) == (carry + chunk)[scan.used..]
            && FenceEnds(data + chunk, pos) == FenceEnds(data, pos) + FenceEnds(carry + chunk, from)
            && (scan.fence == 0 ==> FenceEnds(carry + chunk, from) == {})
            && (forall f :: f in FenceEnds(carry + chunk, from) ==>
                  pos + |data| < f <= from + scan.fence)
            && (scan.fence != 0 ==> pos + |data| < from + scan.fence <= from + scan.used)
  {
    hide Run, Scan, FenceEnds, ScanCommand, Leftover;
    var carry := Leftover(g, data);
    SizableLeftover(g, data);
    ScanInPieces(data, chunk, pos);
    var k := Scan(data).used;
    SizableLeftover(g, data + chunk);
    DropAppend(data, chunk, k, Scan(carry + chunk).used);
    FencesAreNew(carry, chunk, pos + k);
    FenceIsLast(carry + chunk, pos + k);
  }

  /** Executing the staged part of a sizable stream moves past its commands and
      changes nothing behind them. */
  lemma DecodeShift(g: Gx, staged: seq<u8>, rest: seq<u8>, pos: int)
    requires Sizable(staged + rest)
    ensures var l := Leftover(g, staged);
            && Sizable(l + rest)
            && FenceEnds(l + rest, pos + |staged| - |l|) <= FenceEnds(staged + rest, pos)
            && |l| <= 68
  {
    hide Run, Scan, FenceEnds, ScanCommand, Leftover;
    SizablePrefix(staged, rest);
    SizableLeftover(g, staged);
    ScanInPieces(staged, rest, pos);
  }

  // ---- the ring -----------------------------------------------------------

  lemma SliceSplit(ring: seq<u8>, from: int, a: nat, b: nat)
    requires |ring| == RING
    ensures Slice(ring, from, a + b) == Slice(ring, from, a) + Slice(ring, from + a, b)
  {
  }

  /** Offsets less than a whole ring apart use different slots. */
  lemma SlotsDiffer(i: int, w: int)
    requires 0 <= w && w - RING + CHUNK <= i < w && w % RING + CHUNK <= RING
    ensures !(w % RING <= i % RING < w % RING + CHUNK)
  {
    assert i == RING * (i / RING) + i % RING;
    assert w == RING * (w / RING) + w % RING;
  }

  lemma ModSmall(w: int, k: nat)
    requires 0 <= w && w % RING + k < RING
    ensures (w + k) % RING == w % RING + k
  {
    assert w + k == RING * (w / RING) + (w % RING + k);
  }

  /** A chunk written at `w` leaves the earlier unpulled bytes alone and is what
      the ring then holds at `w`. */
  lemma SliceWrite(ring: seq<u8>, from: int, w: int, chunk: seq<u8>)
    requires |ring| == RING && |chunk| == CHUNK
    requires 0 <= from <= w && w + CHUNK - RING <= from && w % RING + CHUNK <= RING
    ensures |Overwrite(ring, w % RING, chunk)| == RING
    ensures Slice(Overwrite(ring, w % RING, chunk), from, w - from) == Slice(ring, from, w - from)
    ensures Slice(Overwrite(ring, w % RING, chunk), w, CHUNK) == chunk
  {
    var at := w % RING;
    var ring' := Overwrite(ring, at, chunk);
    var before, after := Slice(ring, from, w - from), Slice(ring', from, w - from);
    forall i | 0 <= i < |before|
      ensures after[i] == before[i]
    {
      SlotsDiffer(from + i, w);
    }
    forall k | 0 <= k < CHUNK
      ensures Slice(ring', w, CHUNK)[k] == chunk[k]
    {
      ModSmall(w, k);
    }
  }

  lemma SliceContiguous(ring: seq<u8>, from: int, n: nat)
    requires |ring| == RING && 0 <= from && n <= RING - from % RING
    ensures Slice(ring, from, n) == ring[from % RING..from % RING + n]
  {
    forall k | 0 <= k < n
      ensures Slice(ring, from, n)[k] == ring[from % RING..from % RING + n][k]
    {
      ModSmall(from, k);
    }
  }

  lemma AlignedInRing(w: int)
    requires 0 <= w && w % CHUNK == 0
    ensures w % RING % CHUNK == 0 && w % RING + CHUNK <= RING
  {
    assert w == RING * (w / RING) + w % RING;
  }
}
